/** The segmented log: many log files, one of them active, with retention, readers and crashes, as a step
    relation. Each segment runs the log of WalSystem; the manager routes, rolls, detaches and reopens. */
module Segments {
  import opened Options
  import opened Bytes
  import opened WalFormat
  import opened WalReading
  import opened WalLog
  import WalSystem

  type Time = int

  /** A segment: the global offset of its first record, its log, the time of its last append, and the time of
      every append, which the source does not keep. */
  datatype Seg = Seg(base: nat, sys: WalSystem.Sys, lastAppend: Time, times: seq<Time>)

  /** Checksum, checkpoint spacing, size at which to roll (at least 1), retention period, deletions per pass
      (0 for no limit). */
  datatype Config = Config(c: Checksum, nth: nat, maxBytes: nat, retention: nat, limit: nat)

  function Inner(g: Config): WalSystem.Config {
    WalSystem.Config(g.c, g.nth)
  }

  function Count(x: Seg): nat {
    x.sys.w.nextOffset
  }

  function End(x: Seg): nat {
    x.base + Count(x)
  }

  predicate Contains(x: Seg, offset: nat) {
    x.base <= offset < End(x)
  }

  function NewSegment(base: nat, now: Time): Seg {
    Seg(base, WalSystem.EMPTY, now, [])
  }

  function Active(live: seq<Seg>): Seg
    requires live != []
  {
    live[|live| - 1]
  }

  // ---------- Append, first phase ----------

  /** Roll first if the active segment has reached its size. */
  function Rolled(g: Config, live: seq<Seg>, now: Time): (r: seq<Seg>)
    requires live != []
    ensures r != []
  {
    if Active(live).sys.w.size >= g.maxBytes then live + [NewSegment(End(Active(live)), now)] else live
  }

  /** Reserve a record in one segment; its last append is now. */
  function ReserveIn(g: Config, x: Seg, data: seq<byte>, now: Time): Seg {
    if Reserve(g.c, x.sys.w, data).1.Reserved? then
      x.(sys := WalSystem.Next(Inner(g), x.sys, WalSystem.DoReserve(data)), lastAppend := now, times := x.times + [now])
    else x
  }

  /** The global offset the append is given, if the record is accepted. */
  function AssignedOffset(g: Config, live: seq<Seg>, data: seq<byte>, now: Time): Option<nat>
    requires live != []
  {
    var x := Active(Rolled(g, live, now));
    match Reserve(g.c, x.sys.w, data).1
    case Reserved(local, _) => Some(x.base + local)
    case _ => None
  }

  function AppendedTo(g: Config, live: seq<Seg>, data: seq<byte>, now: Time): seq<Seg>
    requires live != []
  {
    var rolled := Rolled(g, live, now);
    rolled[|rolled| - 1 := ReserveIn(g, Active(rolled), data, now)]
  }

  // ---------- routing ----------

  /** The last segment whose base is at or below the offset, or -1. */
  function RouteIndex(live: seq<Seg>, offset: nat): (i: int)
    ensures -1 <= i < |live|
  {
    if live == [] then -1
    else if live[|live| - 1].base <= offset then |live| - 1
    else RouteIndex(live[..|live| - 1], offset)
  }

  datatype Routing = Owner(index: nat) | TooOld(earliest: nat) | PastEnd

  function Route(live: seq<Seg>, offset: nat): (r: Routing)
    requires live != []
    ensures r.Owner? ==> r.index < |live| && Contains(live[r.index], offset)
  {
    var i := RouteIndex(live, offset);
    if i >= 0 && Contains(live[i], offset) then Owner(i)
    else if offset < live[0].base then TooOld(live[0].base)
    else PastEnd
  }

  /** A segment translates the global offset and reads its own log. */
  function ReadIn(g: Config, x: Seg, offset: nat): ReadResult
    requires x.base <= offset
  {
    ReadAt(g.c, x.sys.w.bytes, x.sys.w.store.es, offset - x.base)
  }

  datatype Answer = Answer(r: ReadResult) | OutOfRetention(requested: nat, earliest: nat)

  /** A read that nothing interrupts. */
  function ManagerRead(g: Config, live: seq<Seg>, offset: nat): Answer
    requires live != []
  {
    match Route(live, offset)
    case Owner(i) => Answer(ReadIn(g, live[i], offset))
    case TooOld(earliest) => OutOfRetention(offset, earliest)
    case PastEnd => Answer(Eof)
  }

  // ---------- retention ----------

  /** How many segments a pass detaches, given that it has chosen the first `k`. */
  function VictimsFrom(live: seq<Seg>, cutoff: Time, limit: nat, k: nat): (v: nat)
    requires k < |live|
    ensures k <= v < |live|
    decreases |live| - k
  {
    if k + 1 >= |live| || live[k].lastAppend > cutoff || (limit > 0 && k >= limit) then k
    else VictimsFrom(live, cutoff, limit, k + 1)
  }

  function Victims(g: Config, live: seq<Seg>, now: Time): (v: nat)
    requires live != []
    ensures v < |live|
  {
    VictimsFrom(live, now - g.retention, g.limit, 0)
  }

  // ---------- the system ----------

  type ReaderId = nat

  /** A read that has been routed to a segment and holds a reference to it. */
  datatype Reading = Reading(base: nat, offset: nat)

  /** `gone` are the detached segments; those whose base is in `closed` have been closed and their files
      removed. `refs` counts the readers of each segment. `log` is every payload accepted and not lost in a crash
      since, by its global offset; `dropped` every base ever detached; `clock` the time of the last append or, after a
      crash, the latest modification time if that is later. */
  datatype Mgr = Mgr(
    live: seq<Seg>,
    gone: set<Seg>,
    closed: set<nat>,
    readers: map<ReaderId, Reading>,
    refs: map<nat, nat>,
    log: map<nat, Payload>,
    dropped: set<nat>,
    clock: Time)

  /** What a crash leaves of one segment's files. */
  datatype Loss = Loss(length: nat, durable: nat, index: seq<byte>, modTime: Time)

  datatype Event =
    | AppendReserve(data: seq<byte>, now: Time)
    | LiveCommit(i: nat, e: WalSystem.Event)
    | GoneCommit(x: Seg, e: WalSystem.Event)
    | StartRead(r: ReaderId, offset: nat)
    | FinishRead(r: ReaderId)
    | Detach(now: Time)
    | CloseVictim(x: Seg)
    | Crash(survivors: seq<Seg>, losses: seq<Loss>)

  function Refs(m: Mgr, base: nat): nat {
    if base in m.refs then m.refs[base] else 0
  }

  /** The steps of a commit, on whichever segment it runs. */
  ghost predicate CommitStep(x: Seg, e: WalSystem.Event) {
    (e.Enter? || e.TakeTurn? || e.FinishSync?) && WalSystem.Enabled(x.sys, e)
  }

  /** A segment whose file the directory may still hold. */
  ghost predicate IsFile(m: Mgr, x: Seg) {
    x in m.live || x in m.gone
  }

  ghost predicate Ordered(xs: seq<Seg>) {
    forall i, j :: 0 <= i < j < |xs| ==> xs[i].base < xs[j].base
  }

  /** The files a crash leaves: every segment not yet removed, and perhaps some whose removal was lost, in order
      of base offset; of each, any prefix that contains its fsynced bytes and any crash image of its index. */
  ghost predicate CrashLeaves(m: Mgr, survivors: seq<Seg>, losses: seq<Loss>) {
    && |losses| == |survivors|
    && Ordered(survivors)
    && (forall x <- survivors :: IsFile(m, x))
    && (forall x <- m.live :: x in survivors)
    && (forall x <- m.gone :: x.base !in m.closed ==> x in survivors)
    && (forall i :: 0 <= i < |survivors| ==> WalSystem.Enabled(survivors[i].sys, LossEvent(losses[i])))
  }

  function LossEvent(l: Loss): WalSystem.Event {
    WalSystem.Event.Crash(l.length, l.durable, l.index)
  }

  ghost predicate Enabled(m: Mgr, e: Event) {
    match e
    case AppendReserve(_, _) => true
    case LiveCommit(i, e) => i < |m.live| && CommitStep(m.live[i], e)
    case GoneCommit(x, e) => x in m.gone && x.base !in m.closed && CommitStep(x, e)
    case StartRead(r, _) => r !in m.readers
    case FinishRead(r) => r in m.readers
    case Detach(_) => true
    case CloseVictim(x) => x in m.gone && x.base !in m.closed && Refs(m, x.base) == 0
    case Crash(survivors, losses) => CrashLeaves(m, survivors, losses)
  }

  function Stepped(g: Config, x: Seg, e: WalSystem.Event): Seg
    requires CommitStep(x, e)
  {
    x.(sys := WalSystem.Next(Inner(g), x.sys, e))
  }

  /** Routing takes a reference under the same lock that detaching needs. */
  function Routed(m: Mgr, r: ReaderId, offset: nat): Mgr
    requires m.live != []
  {
    match Route(m.live, offset)
    case Owner(i) =>
      var b := m.live[i].base;
      m.(readers := m.readers[r := Reading(b, offset)], refs := m.refs[b := Refs(m, b) + 1])
    case _ => m
  }

  function Released(m: Mgr, r: ReaderId): Mgr
    requires r in m.readers
  {
    var b := m.readers[r].base;
    m.(readers := m.readers - {r}, refs := m.refs[b := if Refs(m, b) > 0 then Refs(m, b) - 1 else 0])
  }

  /** What the reader's segment gives it. */
  function Delivered(g: Config, x: Seg, rd: Reading): ReadResult {
    if x.base <= rd.offset then ReadIn(g, x, rd.offset) else ReadFailed
  }

  function Bases(xs: seq<Seg>): set<nat> {
    set x | x in xs :: x.base
  }

  function Detached(g: Config, m: Mgr, now: Time): Mgr
    requires m.live != []
  {
    var v := Victims(g, m.live, now);
    m.(live := m.live[v..], gone := m.gone + (set x | x in m.live[..v]), dropped := m.dropped + Bases(m.live[..v]))
  }

  function Recovered(g: Config, x: Seg, l: Loss): Seg
    requires WalSystem.Enabled(x.sys, LossEvent(l))
  {
    var sys := WalSystem.Next(Inner(g), x.sys, LossEvent(l));
    Seg(x.base, sys, l.modTime, if |sys.ps| <= |x.times| then x.times[..|sys.ps|] else x.times)
  }

  function Latest(t: Time, xs: seq<Seg>): Time {
    if xs == [] then t
    else
      var last := xs[|xs| - 1].lastAppend;
      var before := Latest(t, xs[..|xs| - 1]);
      if last > before then last else before
  }

  ghost predicate Held(live: seq<Seg>, offset: nat) {
    exists x :: x in live && Contains(x, offset)
  }

  /** What is left of the record of payloads: those whose offsets the reopened segments hold. */
  ghost function StillHeld(log: map<nat, Payload>, live: seq<Seg>): map<nat, Payload> {
    map o | o in log && Held(live, o) :: log[o]
  }

  ghost function Reopened(g: Config, m: Mgr, survivors: seq<Seg>, losses: seq<Loss>): Mgr
    requires CrashLeaves(m, survivors, losses)
  {
    var live := seq(|survivors|, i requires 0 <= i < |survivors| && CrashLeaves(m, survivors, losses) =>
                                   Recovered(g, survivors[i], losses[i]));
    Mgr(live, {}, {}, map[], map[], StillHeld(m.log, live), m.dropped, Latest(m.clock, live))
  }

  ghost function Next(g: Config, m: Mgr, e: Event): Mgr
    requires m.live != [] && Enabled(m, e)
  {
    match e
    case AppendReserve(data, now) =>
      m.(live := AppendedTo(g, m.live, data, now),
         log := match AssignedOffset(g, m.live, data, now) case Some(o) => m.log[o := data] case None => m.log,
         clock := now)
    case LiveCommit(i, e) => m.(live := m.live[i := Stepped(g, m.live[i], e)])
    case GoneCommit(x, e) => m.(gone := m.gone - {x} + {Stepped(g, x, e)})
    case StartRead(r, offset) => Routed(m, r, offset)
    case FinishRead(r) => Released(m, r)
    case Detach(now) => Detached(g, m, now)
    case CloseVictim(x) => m.(closed := m.closed + {x.base})
    case Crash(survivors, losses) => Reopened(g, m, survivors, losses)
  }

  /** A fresh directory: one empty segment at offset 0. */
  function Fresh(now: Time): Mgr {
    Mgr([NewSegment(0, now)], {}, {}, map[], map[], map[], {}, now)
  }
}
