/** The invariants of the segmented log: one that every step keeps, crashes included, and one that says more
    about runs without a crash. */
module SegmentInvariant {
  import opened WalFormat
  import opened Segments
  import WalSystem

  // ---------- kept by every step ----------

  ghost predicate SegOk(g: Config, x: Seg) {
    WalSystem.Inv(g.c, x.sys) && |x.times| == |x.sys.ps|
  }

  /** Two segments do not overlap, and only a segment itself shares its base. */
  ghost predicate Apart(x: Seg, y: Seg) {
    && (x.base < y.base ==> End(x) <= y.base)
    && (x.base == y.base ==> x == y)
  }

  ghost predicate AllApart(m: Mgr) {
    forall x, y {:trigger Apart(x, y)} :: IsFile(m, x) && IsFile(m, y) ==> Apart(x, y)
  }

  ghost predicate AllOk(g: Config, m: Mgr) {
    forall x {:trigger SegOk(g, x)} :: IsFile(m, x) ==> SegOk(g, x)
  }

  /** Live segments are in order; detached ones lie below them. */
  ghost predicate InOrder(m: Mgr) {
    && m.live != []
    && Ordered(m.live)
    && (forall x <- m.gone :: x.base < m.live[0].base && x.base in m.dropped)
    && (forall b <- m.closed :: b < m.live[0].base)
  }

  ghost predicate FilesOk(g: Config, m: Mgr) {
    InOrder(m) && AllOk(g, m) && AllApart(m)
  }

  function ReadersOf(readers: map<ReaderId, Reading>, base: nat): set<ReaderId> {
    set r | r in readers && readers[r].base == base
  }

  ghost predicate Serves(x: Seg, rd: Reading) {
    x.base == rd.base && Contains(x, rd.offset)
  }

  /** A routed read points into a segment that is live, or detached and still open. */
  ghost predicate ReaderOk(m: Mgr, rd: Reading) {
    exists x :: IsFile(m, x) && x.base !in m.closed && Serves(x, rd)
  }

  ghost predicate ReadersOk(m: Mgr) {
    && (forall r <- m.readers :: ReaderOk(m, m.readers[r]))
    && (forall b: nat :: Refs(m, b) == |ReadersOf(m.readers, b)|)
  }

  ghost predicate Core(g: Config, m: Mgr) {
    FilesOk(g, m) && ReadersOk(m)
  }

  // ---------- the record of payloads ----------

  ghost predicate OnRecord(x: Seg, log: map<nat, Payload>, i: nat) {
    i < |x.sys.ps| ==> x.base + i in log && log[x.base + i] == x.sys.ps[i]
  }

  /** Every record of the segment is on record at its global offset. */
  ghost predicate Recorded(x: Seg, log: map<nat, Payload>) {
    forall i: nat :: OnRecord(x, log, i)
  }

  /** What the files hold is on record, and what is on record and not below the live segments is held by one. */
  ghost predicate LogOk(m: Mgr) {
    && m.live != []
    && (forall x {:trigger Recorded(x, m.log)} :: IsFile(m, x) ==> Recorded(x, m.log))
    && (forall o <- m.log :: o < m.live[0].base || Held(m.live, o))
  }

  /** Each segment begins where the one before it ends. */
  ghost predicate Contiguous(xs: seq<Seg>) {
    forall i, j :: 0 <= i < j < |xs| && j == i + 1 ==> End(xs[i]) == xs[j].base
  }

  // ---------- times ----------

  /** No record is younger than the segment's last append is said to be. */
  ghost predicate Dated(x: Seg) {
    forall t <- x.times :: t <= x.lastAppend
  }

  ghost predicate DatesOk(m: Mgr) {
    forall x <- m.live :: Dated(x) && forall t <- x.times :: t <= m.clock
  }

  /** Last appends rise along the segments. */
  ghost predicate TimesRise(xs: seq<Seg>) {
    forall i, j :: 0 <= i < j < |xs| ==> xs[i].lastAppend <= xs[j].lastAppend
  }

  ghost predicate ClockOk(m: Mgr) {
    TimesRise(m.live) && forall x <- m.live :: x.lastAppend <= m.clock
  }

  // ---------- runs ----------

  ghost predicate IsStep(g: Config, m: Mgr, e: Event, m': Mgr) {
    m.live != [] && Enabled(m, e) && m' == Next(g, m, e)
  }

  ghost predicate IsRun(g: Config, states: seq<Mgr>, events: seq<Event>) {
    && FixedWidth(g.c) && 1 <= g.maxBytes
    && |states| == |events| + 1
    && states[0] == Fresh(states[0].clock)
    && forall k {:trigger IsStep(g, states[k], events[k], states[k + 1])} :: 0 <= k < |events| ==>
         IsStep(g, states[k], events[k], states[k + 1])
  }

  lemma RunStep(g: Config, states: seq<Mgr>, events: seq<Event>, k: nat)
    requires IsRun(g, states, events) && k < |events|
    ensures IsStep(g, states[k], events[k], states[k + 1])
  {
  }

  /** No crash from state `j` to state `k`. */
  ghost predicate CrashFree(events: seq<Event>, j: nat, k: nat) {
    j <= k <= |events| && forall i :: j <= i < k ==> !events[i].Crash?
  }

  /** No append happens at an earlier time than is already on record. */
  ghost predicate SteadyClock(states: seq<Mgr>, events: seq<Event>, k: nat) {
    k <= |events| <= |states| && forall i :: 0 <= i < k && events[i].AppendReserve? ==> states[i].clock <= events[i].now
  }

  /** Whenever a crash leaves files, none was modified before a record that is left in it. */
  ghost predicate CrashesDated(states: seq<Mgr>, events: seq<Event>, k: nat) {
    && k <= |events| < |states|
    && forall i, j :: 0 <= i < k && j == i + 1 && events[i].Crash? ==> forall x <- states[j].live :: Dated(x)
  }

  /** Whenever a crash leaves files, their modification times rise along the segments. */
  ghost predicate CrashesInOrder(states: seq<Mgr>, events: seq<Event>, k: nat) {
    k <= |events| < |states| && forall i, j :: 0 <= i < k && j == i + 1 && events[i].Crash? ==> TimesRise(states[j].live)
  }
}
