/** How large segments get: a segment is filled up to the limit and by one record over it, and left only when full. */
module SegmentSizes {
  import opened Bytes
  import opened WalFormat
  import opened Segments
  import opened SegmentInvariant
  import opened SegmentSteps
  import WalSystem

  // ---------- no segment grows past the limit by more than one record ----------

  /** Without its last record the segment is below the size to roll. */
  ghost predicate Fits(g: Config, x: Seg) {
    x.sys.ps != [] ==> Start(g.c, x.sys.ps, |x.sys.ps| - 1) < g.maxBytes
  }

  ghost predicate AllFit(g: Config, m: Mgr) {
    forall x {:trigger Fits(g, x)} :: IsFile(m, x) ==> Fits(g, x)
  }

  /** A segment with fewer records of the same fits too. */
  lemma FewerFit(g: Config, x: Seg, x': Seg)
    requires FixedWidth(g.c) && Fits(g, x) && x'.sys.ps <= x.sys.ps
    ensures Fits(g, x')
  {
    var ps, ps' := x.sys.ps, x'.sys.ps;
    if ps' != [] {
      assert ps'[..|ps'| - 1] == ps[..|ps'| - 1];
      StartMonotone(g.c, ps, |ps'| - 1, |ps| - 1);
    }
  }

  /** The segment an append goes to is below the size to roll before it. */
  lemma RolledHasSpace(g: Config, live: seq<Seg>, now: Time)
    requires live != [] && 1 <= g.maxBytes
    ensures Active(Rolled(g, live, now)).sys.w.size < g.maxBytes
  {
  }

  lemma ReservedFits(g: Config, x: Seg, data: seq<byte>, now: Time)
    requires FixedWidth(g.c) && SegOk(g, x) && Fits(g, x) && x.sys.w.size < g.maxBytes
    ensures Fits(g, ReserveIn(g, x, data, now))
  {
    var x' := ReserveIn(g, x, data, now);
    ReserveInOk(g, x, data, now);
    if x' != x {
      assert x'.sys.ps[..|x'.sys.ps| - 1] == x.sys.ps;
    }
  }

  lemma RollFits(g: Config, m: Mgr, now: Time)
    requires m.live != [] && AllFit(g, m)
    ensures AllFit(g, m.(live := Rolled(g, m.live, now)))
  {
    var m' := m.(live := Rolled(g, m.live, now));
    forall x | IsFile(m', x) ensures Fits(g, x) {
      assert IsFile(m, x) || x.sys.ps == [];
    }
  }

  lemma AppendFits(g: Config, m: Mgr, data: seq<byte>, now: Time)
    requires FixedWidth(g.c) && 1 <= g.maxBytes && FilesOk(g, m) && AllFit(g, m)
    ensures AllFit(g, m.(live := AppendedTo(g, m.live, data, now)))
  {
    var mid := m.(live := Rolled(g, m.live, now));
    var m' := m.(live := AppendedTo(g, m.live, data, now));
    RollKeepsFiles(g, m, now);
    RollFits(g, m, now);
    var a := Active(mid.live);
    assert IsFile(mid, a) && SegOk(g, a) && Fits(g, a);
    RolledHasSpace(g, m.live, now);
    ReservedFits(g, a, data, now);
    forall x | IsFile(m', x) ensures Fits(g, x) {
      assert x == ReserveIn(g, a, data, now) || IsFile(mid, x);
    }
  }

  lemma CrashFits(g: Config, m: Mgr, survivors: seq<Seg>, losses: seq<Loss>)
    requires FixedWidth(g.c) && FilesOk(g, m) && AllFit(g, m) && CrashLeaves(m, survivors, losses)
    ensures AllFit(g, Reopened(g, m, survivors, losses))
  {
    var m' := Reopened(g, m, survivors, losses);
    forall x | IsFile(m', x) ensures Fits(g, x) {
      var i :| 0 <= i < |m'.live| && m'.live[i] == x;
      CrashKeepsSegment(g, m, survivors, losses, i);
      FewerFit(g, survivors[i], x);
    }
  }

  lemma CommitFits(g: Config, m: Mgr, x: Seg, e: WalSystem.Event)
    requires FixedWidth(g.c) && FilesOk(g, m) && AllFit(g, m) && IsFile(m, x) && CommitStep(x, e)
    ensures Fits(g, Stepped(g, x, e))
  {
    assert SegOk(g, x) && Fits(g, x);
    SteppedOk(g, x, e);
  }

  lemma StepFits(g: Config, m: Mgr, e: Event)
    requires FixedWidth(g.c) && 1 <= g.maxBytes && FilesOk(g, m) && AllFit(g, m) && Enabled(m, e)
    ensures AllFit(g, Next(g, m, e))
  {
    var m' := Next(g, m, e);
    match e
    case AppendReserve(data, now) =>
      AppendFits(g, m, data, now);
      assert forall x :: IsFile(m', x) <==> IsFile(m.(live := AppendedTo(g, m.live, data, now)), x);
    case LiveCommit(i, e') =>
      assert IsFile(m, m.live[i]);
      CommitFits(g, m, m.live[i], e');
      assert forall x :: IsFile(m', x) ==> x == Stepped(g, m.live[i], e') || IsFile(m, x);
    case GoneCommit(x, e') =>
      assert IsFile(m, x);
      CommitFits(g, m, x, e');
      assert forall y :: IsFile(m', y) ==> y == Stepped(g, x, e') || IsFile(m, y);
    case Crash(survivors, losses) => CrashFits(g, m, survivors, losses);
    case _ =>
      assert forall x :: IsFile(m', x) ==> IsFile(m, x);
  }

  lemma {:induction false} RunFits(g: Config, states: seq<Mgr>, events: seq<Event>, k: nat)
    requires IsRun(g, states, events) && k < |states|
    ensures AllFit(g, states[k])
  {
    if k > 0 {
      RunFits(g, states, events, k - 1);
      RunHasCore(g, states, events, k - 1);
      RunStep(g, states, events, k - 1);
      StepFits(g, states[k - 1], events[k - 1]);
    }
  }

  /** In every reachable state, crashes included, every segment without its last record is below the size to roll; so
      none is larger than that size and one record of the largest kind. */
  lemma SegmentsStaySmall(g: Config, states: seq<Mgr>, events: seq<Event>, k: nat, x: Seg)
    requires IsRun(g, states, events) && k < |states| && IsFile(states[k], x)
    ensures Fits(g, x)
    ensures x.sys.w.size < g.maxBytes + HeaderSize(g.c) + MAX_RECORD
  {
    RunFits(g, states, events, k);
    RunHasCore(g, states, events, k);
    assert SegOk(g, x) && Fits(g, x);
    var ps := x.sys.ps;
    if ps != [] {
      StartStep(g.c, ps, |ps| - 1);
      assert ps[..|ps|] == ps;
    }
  }

  // ---------- no segment is left before it is full ----------

  /** Every segment but the active one has reached the size to roll. */
  ghost predicate AllFull(g: Config, live: seq<Seg>) {
    forall i :: 0 <= i < |live| - 1 ==> live[i].sys.w.size >= g.maxBytes
  }

  lemma AppendFills(g: Config, live: seq<Seg>, data: seq<byte>, now: Time)
    requires live != [] && AllFull(g, live)
    ensures AllFull(g, AppendedTo(g, live, data, now))
  {
    var rolled := Rolled(g, live, now);
    assert forall i :: 0 <= i < |rolled| - 1 ==> rolled[i].sys.w.size >= g.maxBytes;
  }

  lemma CommitKeepsSize(g: Config, x: Seg, e: WalSystem.Event)
    requires CommitStep(x, e)
    ensures Stepped(g, x, e).sys.w.size == x.sys.w.size
  {
  }

  lemma ReplaceFills(g: Config, live: seq<Seg>, i: nat, x: Seg)
    requires AllFull(g, live) && i < |live| && x.sys.w.size == live[i].sys.w.size
    ensures AllFull(g, live[i := x])
  {
  }

  lemma DetachFills(g: Config, live: seq<Seg>, v: nat)
    requires AllFull(g, live) && v < |live|
    ensures AllFull(g, live[v..])
  {
    forall i | 0 <= i < |live[v..]| - 1 ensures live[v..][i].sys.w.size >= g.maxBytes {
      assert live[v..][i] == live[v + i];
    }
  }

  /** Reads, closing and commits on detached segments leave the live ones alone. */
  lemma OthersLeaveLive(g: Config, m: Mgr, e: Event)
    requires m.live != [] && Enabled(m, e)
    requires e.GoneCommit? || e.StartRead? || e.FinishRead? || e.CloseVictim?
    ensures Next(g, m, e).live == m.live
  {
  }

  lemma StepFills(g: Config, m: Mgr, e: Event)
    requires m.live != [] && Enabled(m, e) && !e.Crash? && AllFull(g, m.live)
    ensures AllFull(g, Next(g, m, e).live)
  {
    match e
    case AppendReserve(data, now) => AppendFills(g, m.live, data, now);
    case LiveCommit(i, e') =>
      CommitKeepsSize(g, m.live[i], e');
      ReplaceFills(g, m.live, i, Stepped(g, m.live[i], e'));
    case Detach(now) => DetachFills(g, m.live, Victims(g, m.live, now));
    case _ => OthersLeaveLive(g, m, e);
  }

  /** In every run without a crash every segment but the active one has reached the size to roll. */
  lemma {:induction false} SealedSegmentsAreFull(g: Config, states: seq<Mgr>, events: seq<Event>, k: nat)
    requires IsRun(g, states, events) && CrashFree(events, 0, k)
    ensures AllFull(g, states[k].live)
  {
    if k > 0 {
      assert CrashFree(events, 0, k - 1) && !events[k - 1].Crash?;
      SealedSegmentsAreFull(g, states, events, k - 1);
      RunStep(g, states, events, k - 1);
      StepFills(g, states[k - 1], events[k - 1]);
    }
  }

  /** An append begins a new segment exactly when the active one has reached the size to roll, at the offset where that
      one ends; otherwise it goes to the active one. */
  lemma RollsExactlyWhenFull(g: Config, states: seq<Mgr>, events: seq<Event>, k: nat)
    requires IsRun(g, states, events) && k < |events| && events[k].AppendReserve?
    ensures states[k].live != [] && states[k + 1].live != []
    ensures var live, live' := states[k].live, states[k + 1].live;
            if Active(live).sys.w.size >= g.maxBytes
            then |live'| == |live| + 1 && live'[..|live|] == live && Active(live').base == End(Active(live))
            else |live'| == |live| && live'[..|live| - 1] == live[..|live| - 1] && Active(live').base == Active(live).base
  {
    RunStep(g, states, events, k);
  }

  // ---------- the date of a segment ----------

  /** The last append is the youngest record, or of a segment without records any time. */
  ghost predicate DatedByLast(x: Seg) {
    x.times != [] ==> x.lastAppend == x.times[|x.times| - 1]
  }

  ghost predicate AllDatedByLast(live: seq<Seg>) {
    forall i :: 0 <= i < |live| ==> DatedByLast(live[i])
  }

  lemma AppendDatesByLast(g: Config, live: seq<Seg>, data: seq<byte>, now: Time)
    requires live != [] && AllDatedByLast(live)
    ensures AllDatedByLast(AppendedTo(g, live, data, now))
  {
    assert AllDatedByLast(Rolled(g, live, now));
  }

  lemma DetachDatesByLast(live: seq<Seg>, v: nat)
    requires AllDatedByLast(live) && v <= |live|
    ensures AllDatedByLast(live[v..])
  {
    forall i | 0 <= i < |live[v..]| ensures DatedByLast(live[v..][i]) {
      assert live[v..][i] == live[v + i];
    }
  }

  lemma StepDatesByLast(g: Config, m: Mgr, e: Event)
    requires m.live != [] && Enabled(m, e) && !e.Crash? && AllDatedByLast(m.live)
    ensures AllDatedByLast(Next(g, m, e).live)
  {
    match e
    case AppendReserve(data, now) => AppendDatesByLast(g, m.live, data, now);
    case LiveCommit(i, e') => assert DatedByLast(Stepped(g, m.live[i], e'));
    case Detach(now) => DetachDatesByLast(m.live, Victims(g, m.live, now));
    case _ => OthersLeaveLive(g, m, e);
  }

  /** In every run without a crash the time retention goes by is that of the segment's last record. */
  lemma {:induction false} LastAppendIsLastRecord(g: Config, states: seq<Mgr>, events: seq<Event>, k: nat)
    requires IsRun(g, states, events) && CrashFree(events, 0, k)
    ensures AllDatedByLast(states[k].live)
  {
    if k > 0 {
      assert CrashFree(events, 0, k - 1) && !events[k - 1].Crash?;
      LastAppendIsLastRecord(g, states, events, k - 1);
      RunStep(g, states, events, k - 1);
      StepDatesByLast(g, states[k - 1], events[k - 1]);
    }
  }
}
