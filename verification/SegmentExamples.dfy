/** Runs in which a promise of the segmented log fails: small ones, for every checksum and checkpoint spacing. */
module SegmentExamples {
  import opened Bytes
  import opened WalFormat
  import opened CheckpointIndex
  import opened WalReading
  import opened WalLog
  import opened Segments
  import opened SegmentInvariant
  import opened SegmentSteps
  import opened SegmentReads
  import opened SegmentGaps
  import opened SegmentRetention
  import WalSystem

  lemma Extend(g: Config, states: seq<Mgr>, events: seq<Event>, e: Event, m: Mgr)
    returns (states': seq<Mgr>, events': seq<Event>)
    requires IsRun(g, states, events) && IsStep(g, states[|events|], e, m)
    ensures IsRun(g, states', events') && states' == states + [m] && events' == events + [e]
  {
    states', events' := states + [m], events + [e];
    forall k | 0 <= k < |events'| ensures IsStep(g, states'[k], events'[k], states'[k + 1]) {
      if k < |events| {
        assert IsStep(g, states[k], events[k], states[k + 1]);
      }
    }
  }

  // ---------- appends, each to a segment of its own ----------

  /** Segments roll after every record. */
  ghost predicate Tiny(g: Config) {
    FixedWidth(g.c) && HeaderSize(g.c) < TWO_63 && g.maxBytes == 1
  }

  /** A segment that holds one record, appended at time 0, and has synced nothing. */
  ghost predicate OneUnsynced(g: Config, x: Seg, base: nat) {
    && x.base == base && Count(x) == 1 && SegOk(g, x) && x.lastAppend == 0 && x.times == [0] && x.sys.calls == map[]
    && x.sys.w.size >= 1 && x.sys.w.durable == 0 && x.sys.w.store.es == [] && x.sys.w.writeSeq == 1
    && x.sys.w.syncedSeq == 0 && !x.sys.w.syncing && !x.sys.w.failed && x.sys.acked == {} && x.sys.syncs == 0
  }

  lemma EmptyReserves(c: Checksum)
    requires FixedWidth(c) && HeaderSize(c) < TWO_63
    ensures Reserve(c, WalSystem.EMPTY.w, []) == (Appended(WalSystem.EMPTY.w, Record(c, [])), Reserved(0, 1))
    ensures |Record(c, [])| >= 1
  {
    RecordParts(c, []);
  }

  lemma FirstRecord(g: Config, base: nat)
    requires Tiny(g)
    ensures Reserve(g.c, NewSegment(base, 0).sys.w, []).1.Reserved?
    ensures OneUnsynced(g, ReserveIn(g, NewSegment(base, 0), [], 0), base)
  {
    NewSegmentOk(g, base, 0);
    EmptyReserves(g.c);
    ReserveInOk(g, NewSegment(base, 0), [], 0);
    FirstOfSystem(g);
  }

  lemma FirstOfSystem(g: Config)
    requires Tiny(g)
    ensures WalSystem.Next(Inner(g), WalSystem.EMPTY, WalSystem.DoReserve([])) ==
            WalSystem.EMPTY.(w := Appended(WalSystem.EMPTY.w, Record(g.c, [])), ps := [[]])
  {
    EmptyReserves(g.c);
    assert WalSystem.EMPTY.ps + [[]] == [[]];
  }

  /** Appending an empty record when the active segment, after rolling, is empty. */
  lemma AppendFirst(g: Config, m: Mgr, init: seq<Seg>, base: nat) returns (e: Event, m': Mgr, x: Seg)
    requires Tiny(g) && m.live != [] && Rolled(g, m.live, 0) == init + [NewSegment(base, 0)]
    ensures e == AppendReserve([], 0) && IsStep(g, m, e, m') && OneUnsynced(g, x, base)
    ensures m'.live == init + [x] && m'.gone == m.gone && m'.closed == m.closed && m'.dropped == m.dropped
    ensures m'.clock == 0 && m'.refs == m.refs && m'.readers == m.readers
  {
    FirstRecord(g, base);
    e, x := AppendReserve([], 0), ReserveIn(g, NewSegment(base, 0), [], 0);
    m' := Next(g, m, e);
    assert m'.live == init + [x];
  }

  /** The state after `n` such appends. */
  ghost predicate Filled(g: Config, m: Mgr, n: nat) {
    && |m.live| == n && m.gone == {} && m.closed == {} && m.dropped == {} && m.clock == 0
    && m.refs == map[] && m.readers == map[]
    && forall i :: 0 <= i < n ==> OneUnsynced(g, m.live[i], i)
  }

  /** Nothing but such appends so far. */
  ghost predicate OnlyAppends(states: seq<Mgr>, events: seq<Event>) {
    |events| < |states| && forall k :: 0 <= k < |events| ==> events[k] == AppendReserve([], 0) && states[k].clock == 0
  }

  lemma AppendAgain(g: Config, m: Mgr, n: nat) returns (e: Event, m': Mgr)
    requires Tiny(g) && 0 < n && Filled(g, m, n)
    ensures e == AppendReserve([], 0) && IsStep(g, m, e, m') && Filled(g, m', n + 1)
  {
    assert OneUnsynced(g, m.live[n - 1], n - 1);
    assert Rolled(g, m.live, 0) == m.live + [NewSegment(n, 0)];
    var x: Seg;
    e, m', x := AppendFirst(g, m, m.live, n);
  }

  lemma FirstAppend(g: Config) returns (states: seq<Mgr>, events: seq<Event>)
    requires Tiny(g)
    ensures IsRun(g, states, events) && |events| == 1 && Filled(g, states[1], 1) && OnlyAppends(states, events)
  {
    var m0 := Fresh(0);
    assert Rolled(g, m0.live, 0) == [] + [NewSegment(0, 0)];
    var e, m, x := AppendFirst(g, m0, [], 0);
    states, events := Extend(g, [m0], [], e, m);
  }

  lemma {:induction false} ManyAppends(g: Config, n: nat) returns (states: seq<Mgr>, events: seq<Event>)
    requires Tiny(g) && 0 < n
    ensures IsRun(g, states, events) && |events| == n && Filled(g, states[n], n) && OnlyAppends(states, events)
  {
    if n == 1 {
      states, events := FirstAppend(g);
    } else {
      states, events := ManyAppends(g, n - 1);
      states, events := OneMoreAppend(g, states, events, n - 1);
    }
  }

  lemma OneMoreAppend(g: Config, states: seq<Mgr>, events: seq<Event>, n: nat)
    returns (states': seq<Mgr>, events': seq<Event>)
    requires Tiny(g) && 0 < n && IsRun(g, states, events) && |events| == n && Filled(g, states[n], n)
    requires OnlyAppends(states, events)
    ensures IsRun(g, states', events') && |events'| == n + 1 && Filled(g, states'[n + 1], n + 1)
    ensures OnlyAppends(states', events')
  {
    var e, m := AppendAgain(g, states[n], n);
    states', events' := Extend(g, states, events, e, m);
  }

  // ---------- what a crash may leave of such a segment ----------

  /** All of it. */
  function Whole(x: Seg, modTime: Time): Loss {
    Loss(|x.sys.w.bytes|, |x.sys.w.bytes|, [], modTime)
  }

  /** One byte, a torn record. */
  function Torn(modTime: Time): Loss {
    Loss(1, 0, [], modTime)
  }

  lemma WholeSurvives(g: Config, x: Seg, base: nat, modTime: Time)
    requires FixedWidth(g.c) && OneUnsynced(g, x, base)
    ensures WalSystem.Enabled(x.sys, LossEvent(Whole(x, modTime)))
    ensures var x' := Recovered(g, x, Whole(x, modTime));
            x'.base == base && Count(x') == 1 && x'.lastAppend == modTime && x'.times == [0]
  {
    assert CrashImage([], []);
    RecoveredOk(g, x, Whole(x, modTime));
    RecoveredCount(g, x, Whole(x, modTime));
  }

  lemma TornIsCut(g: Config, x: Seg, base: nat, modTime: Time)
    requires FixedWidth(g.c) && OneUnsynced(g, x, base)
    ensures WalSystem.Enabled(x.sys, LossEvent(Torn(modTime))) && Torn(modTime).length < |x.sys.w.bytes|
    ensures var x' := Recovered(g, x, Torn(modTime));
            x'.base == base && Count(x') == 0 && x'.lastAppend == modTime && x'.times == []
  {
    assert CrashImage([], []);
    StartMonotone(g.c, x.sys.ps, 0, 1);
    assert x.sys.ps[..1] == x.sys.ps;
    RecoveredOk(g, x, Torn(modTime));
    RecoveredCount(g, x, Torn(modTime));
  }

  // ---------- a gap: the tail of a sealed segment is lost ----------

  /** The first segment is torn, the others are whole. */
  function TearFirst(m: Mgr, modTime: Time): seq<Loss> {
    seq(|m.live|, i requires 0 <= i < |m.live| => if i == 0 then Torn(modTime) else Whole(m.live[i], 0))
  }

  lemma TearsFirstAt(g: Config, m: Mgr, n: nat, modTime: Time, i: nat)
    requires FixedWidth(g.c) && i < n && Filled(g, m, n)
    ensures WalSystem.Enabled(m.live[i].sys, LossEvent(TearFirst(m, modTime)[i]))
    ensures var x' := Recovered(g, m.live[i], TearFirst(m, modTime)[i]);
            if i == 0 then x'.base == 0 && Count(x') == 0 && x'.lastAppend == modTime && x'.times == []
            else x'.base == i && Count(x') == 1 && x'.lastAppend == 0 && x'.times == [0]
  {
    assert OneUnsynced(g, m.live[i], i);
    if i == 0 {
      TornIsCut(g, m.live[0], 0, modTime);
    } else {
      WholeSurvives(g, m.live[i], i, 0);
    }
  }

  lemma TearIsPossible(g: Config, m: Mgr, n: nat, modTime: Time)
    requires FixedWidth(g.c) && Filled(g, m, n)
    ensures CrashLeaves(m, m.live, TearFirst(m, modTime))
  {
    var losses := TearFirst(m, modTime);
    forall i | 0 <= i < n ensures WalSystem.Enabled(m.live[i].sys, LossEvent(losses[i])) {
      TearsFirstAt(g, m, n, modTime, i);
    }
    BasesRise(g, m, n);
  }

  lemma TearsFirst(g: Config, m: Mgr, n: nat, modTime: Time) returns (m': Mgr)
    requires FixedWidth(g.c) && 0 < n && Filled(g, m, n)
    ensures IsStep(g, m, Crash(m.live, TearFirst(m, modTime)), m') && |m'.live| == n
    ensures m'.live[0].base == End(m'.live[0]) == 0 && m'.live[0].lastAppend == modTime && m'.live[0].times == []
    ensures forall i :: 0 < i < n ==>
              m'.live[i].base == i && Count(m'.live[i]) == 1 && m'.live[i].lastAppend == 0 && m'.live[i].times == [0]
  {
    TearIsPossible(g, m, n, modTime);
    m' := Reopened(g, m, m.live, TearFirst(m, modTime));
    TearsFirstAt(g, m, n, modTime, 0);
    forall i | 0 < i < n
      ensures m'.live[i].base == i && Count(m'.live[i]) == 1 && m'.live[i].lastAppend == 0 && m'.live[i].times == [0]
    {
      TearsFirstAt(g, m, n, modTime, i);
    }
  }

  lemma BasesRise(g: Config, m: Mgr, n: nat)
    requires Filled(g, m, n)
    ensures Ordered(m.live) && Contiguous(m.live)
  {
    forall i, j | 0 <= i < j < |m.live| ensures m.live[i].base < m.live[j].base {
      assert OneUnsynced(g, m.live[i], i) && OneUnsynced(g, m.live[j], j);
    }
    forall i, j | 0 <= i < j < |m.live| && j == i + 1 ensures End(m.live[i]) == m.live[j].base {
      assert OneUnsynced(g, m.live[i], i) && OneUnsynced(g, m.live[j], j);
    }
  }

  /** Two appends, each in a segment of its own, then a crash that tears the record of the first. Offset 0 then lies
      below the head and not below the earliest offset, and reading it finds the end of the log. */
  lemma LostTailExample(g: Config) returns (states: seq<Mgr>, events: seq<Event>)
    requires Tiny(g)
    ensures IsRun(g, states, events) && |events| == 3 && events[2].Crash? && states[3].live != []
    ensures var live := states[3].live;
            live[0].base <= 0 < End(Active(live)) && ManagerRead(g, live, 0) == Answer(Eof) && !EofMeansHead(g, live)
  {
    states, events := ManyAppends(g, 2);
    var e := Crash(states[2].live, TearFirst(states[2], 0));
    var m := TearsFirst(g, states[2], 2, 0);
    states, events := Extend(g, states, events, e, m);
    UnownedRead(g, m.live, 0);
  }

  // ---------- a gap: the removal of an older segment is lost ----------

  lemma DetachesTwo(g: Config, m: Mgr) returns (m': Mgr)
    requires Filled(g, m, 3) && g.limit == 0
    ensures IsStep(g, m, Detach(g.retention), m')
    ensures m'.live == [m.live[2]] && m'.gone == {m.live[0], m.live[1]} && m'.closed == {} && m'.refs == map[]
  {
    assert OneUnsynced(g, m.live[0], 0) && OneUnsynced(g, m.live[1], 1);
    m' := Detached(g, m, g.retention);
    assert VictimsFrom(m.live, 0, 0, 2) == 2;
    assert VictimsFrom(m.live, 0, 0, 1) == 2;
    assert m.live[..2] == [m.live[0], m.live[1]] && m.live[2..] == [m.live[2]];
  }

  lemma ClosesOne(g: Config, m: Mgr, x: Seg) returns (m': Mgr)
    requires m.live != [] && x in m.gone && x.base !in m.closed && m.refs == map[]
    ensures IsStep(g, m, CloseVictim(x), m')
    ensures m'.live == m.live && m'.gone == m.gone && m'.closed == m.closed + {x.base} && m'.refs == m.refs
  {
    m' := Next(g, m, CloseVictim(x));
  }

  /** Of three segments the first two are gone and closed; the crash brings back the first but not the second. */
  lemma BringsBackFirst(g: Config, m: Mgr, x: Seg, y: Seg, z: Seg) returns (e: Event, m': Mgr)
    requires FixedWidth(g.c) && OneUnsynced(g, x, 0) && OneUnsynced(g, y, 1) && OneUnsynced(g, z, 2)
    requires m.live == [z] && m.gone == {x, y} && m.closed == {0, 1}
    ensures e == Crash([x, z], [Whole(x, 0), Whole(z, 0)]) && IsStep(g, m, e, m')
    ensures |m'.live| == 2 && m'.live[0].base == 0 && End(m'.live[0]) == 1
    ensures m'.live[1].base == 2 && End(m'.live[1]) == 3
  {
    WholeSurvives(g, x, 0, 0);
    WholeSurvives(g, z, 2, 0);
    FirstMayComeBack(g, m, x, y, z);
    e, m' := Crash([x, z], [Whole(x, 0), Whole(z, 0)]), Reopened(g, m, [x, z], [Whole(x, 0), Whole(z, 0)]);
  }

  lemma FirstMayComeBack(g: Config, m: Mgr, x: Seg, y: Seg, z: Seg)
    requires x.base == 0 && y.base == 1 && z.base == 2 && m.live == [z] && m.gone == {x, y} && m.closed == {0, 1}
    requires WalSystem.Enabled(x.sys, LossEvent(Whole(x, 0))) && WalSystem.Enabled(z.sys, LossEvent(Whole(z, 0)))
    ensures CrashLeaves(m, [x, z], [Whole(x, 0), Whole(z, 0)])
  {
  }

  lemma RemovesTwo(g: Config) returns (states: seq<Mgr>, events: seq<Event>, x: Seg, y: Seg, z: Seg)
    requires Tiny(g) && g.limit == 0
    ensures IsRun(g, states, events) && |events| == 6
    ensures OneUnsynced(g, x, 0) && OneUnsynced(g, y, 1) && OneUnsynced(g, z, 2)
    ensures states[6].live == [z] && states[6].gone == {x, y} && states[6].closed == {0, 1}
  {
    states, events := ManyAppends(g, 3);
    x, y, z := states[3].live[0], states[3].live[1], states[3].live[2];
    assert OneUnsynced(g, x, 0) && OneUnsynced(g, y, 1) && OneUnsynced(g, z, 2);
    var m := DetachesTwo(g, states[3]);
    states, events := Extend(g, states, events, Detach(g.retention), m);
    m := ClosesOne(g, m, x);
    states, events := Extend(g, states, events, CloseVictim(x), m);
    m := ClosesOne(g, m, y);
    states, events := Extend(g, states, events, CloseVictim(y), m);
  }

  /** Three appends, each in a segment of its own; retention detaches, closes and removes the first two; a crash
      undoes the removal of the first only, and loses no byte of any file. Offset 1 then lies in a gap. */
  lemma LostRemovalExample(g: Config) returns (states: seq<Mgr>, events: seq<Event>)
    requires Tiny(g) && g.limit == 0
    ensures IsRun(g, states, events) && |events| == 7 && events[6].Crash? && states[7].live != []
    ensures |events[6].losses| == |events[6].survivors| && NoTailLost(events[6].survivors, events[6].losses)
    ensures var live := states[7].live;
            live[0].base <= 1 < End(Active(live)) && ManagerRead(g, live, 1) == Answer(Eof) && !EofMeansHead(g, live)
  {
    var x, y, z;
    states, events, x, y, z := RemovesTwo(g);
    var e, m := BringsBackFirst(g, states[6], x, y, z);
    states, events := Extend(g, states, events, e, m);
    UnownedRead(g, m.live, 1);
  }

  // ---------- an expired segment behind a younger one ----------

  /** Three appends at time 0, each in a segment of its own; a crash tears the record of the first, and cutting it off
      dates that file later than the others. A pass then stops at the first segment and keeps the second, which has
      expired and is not active. */
  lemma TornTailShieldsExpired(g: Config) returns (states: seq<Mgr>, events: seq<Event>, now: Time)
    requires Tiny(g) && g.limit == 0
    ensures IsRun(g, states, events) && |events| == 4 && events[3].Crash?
    ensures SteadyClock(states, events, 4) && CrashesDated(states, events, 4)
    ensures |states[4].live| == 3
    ensures Expired(g, states[4].live[1], now) && Victims(g, states[4].live, now) == 0
  {
    states, events := ManyAppends(g, 3);
    var m := states[3];
    now := g.retention;
    var e := Crash(m.live, TearFirst(m, 1));
    var m' := TearsFirst(g, m, 3, 1);
    states, events := Extend(g, states, events, e, m');
    assert VictimsFrom(m'.live, 0, 0, 0) == 0;
    assert forall i :: 0 <= i < 3 ==> events[i] == AppendReserve([], 0);
  }

  // ---------- a segment detached under a commit ----------

  /** The segment after each step of a commit of its one record by caller 0. */
  ghost predicate Entered(g: Config, x: Seg) {
    && x.base == 0 && Count(x) == 1 && SegOk(g, x) && x.lastAppend == 0 && x.sys.calls == map[0 := WalSystem.Trying(1, 0)]
    && x.sys.w.writeSeq == 1 && x.sys.w.syncedSeq == 0 && !x.sys.w.syncing && !x.sys.w.failed && x.sys.w.size >= 1
  }

  ghost predicate Leading(g: Config, x: Seg) {
    && x.base == 0 && Count(x) == 1 && SegOk(g, x) && x.lastAppend == 0 && !x.sys.w.failed
    && x.sys.calls == map[0 := WalSystem.Syncing(1, 0, 1, |x.sys.w.bytes|)]
    && x.sys.w.writeSeq == 1 && x.sys.w.syncedSeq == 0
  }

  ghost predicate Synced(g: Config, x: Seg) {
    && x.base == 0 && Count(x) == 1 && SegOk(g, x) && !x.sys.w.failed
    && x.sys.calls == map[0 := WalSystem.Trying(1, 0)] && x.sys.w.writeSeq == 1 && x.sys.w.syncedSeq == 1
  }

  lemma CallEnters(g: Config, x: Seg)
    requires FixedWidth(g.c) && OneUnsynced(g, x, 0)
    ensures CommitStep(x, WalSystem.Enter(0, 1)) && Entered(g, Stepped(g, x, WalSystem.Enter(0, 1)))
  {
    SteppedOk(g, x, WalSystem.Enter(0, 1));
  }

  lemma CallLeads(g: Config, x: Seg)
    requires FixedWidth(g.c) && Entered(g, x)
    ensures CommitStep(x, WalSystem.TakeTurn(0)) && Leading(g, Stepped(g, x, WalSystem.TakeTurn(0)))
  {
    SteppedOk(g, x, WalSystem.TakeTurn(0));
  }

  lemma CallSyncs(g: Config, x: Seg)
    requires FixedWidth(g.c) && Leading(g, x)
    ensures CommitStep(x, WalSystem.FinishSync(0, true)) && Synced(g, Stepped(g, x, WalSystem.FinishSync(0, true)))
  {
    SteppedOk(g, x, WalSystem.FinishSync(0, true));
  }

  lemma CallReturns(g: Config, x: Seg)
    requires FixedWidth(g.c) && Synced(g, x)
    ensures CommitStep(x, WalSystem.TakeTurn(0))
    ensures var x' := Stepped(g, x, WalSystem.TakeTurn(0));
            x'.base == 0 && x'.sys.calls == map[0 := WalSystem.Returned(1, true)] && 0 in x'.sys.acked
  {
  }

  lemma EnterThenAppend(g: Config) returns (states: seq<Mgr>, events: seq<Event>)
    requires Tiny(g)
    ensures IsRun(g, states, events) && |events| == 3
    ensures var m := states[3];
            && |m.live| == 2 && Entered(g, m.live[0]) && OneUnsynced(g, m.live[1], 1)
            && m.gone == {} && m.closed == {} && m.dropped == {}
  {
    states, events := ManyAppends(g, 1);
    var m := states[1];
    assert OneUnsynced(g, m.live[0], 0);
    CallEnters(g, m.live[0]);
    var x := Stepped(g, m.live[0], WalSystem.Enter(0, 1));
    var m' := m.(live := m.live[0 := x]);
    assert m'.live == [x];
    states, events := Extend(g, states, events, LiveCommit(0, WalSystem.Enter(0, 1)), m');
    assert Rolled(g, m'.live, 0) == [x] + [NewSegment(1, 0)];
    var e, m2, y := AppendFirst(g, m', [x], 1);
    states, events := Extend(g, states, events, e, m2);
  }

  lemma DetachesFirst(g: Config, m: Mgr) returns (m': Mgr)
    requires |m.live| == 2 && m.live[0].lastAppend == 0 && m.gone == {} && m.dropped == {}
    ensures IsStep(g, m, Detach(g.retention), m')
    ensures m'.live == [m.live[1]] && m'.gone == {m.live[0]} && m'.closed == m.closed
  {
    m' := Detached(g, m, g.retention);
    assert VictimsFrom(m.live, 0, g.limit, 1) == 1;
    assert Victims(g, m.live, g.retention) == 1;
    assert m.live[..1] == [m.live[0]] && m.live[1..] == [m.live[1]];
  }

  lemma GoneStep(g: Config, m: Mgr, x: Seg, e: WalSystem.Event) returns (m': Mgr)
    requires m.live != [] && m.gone == {x} && m.closed == {} && CommitStep(x, e)
    ensures IsStep(g, m, GoneCommit(x, e), m')
    ensures m'.live == m.live && m'.gone == {Stepped(g, x, e)} && m'.closed == {}
  {
    m' := Next(g, m, GoneCommit(x, e));
    assert m.gone - {x} + {Stepped(g, x, e)} == {Stepped(g, x, e)};
  }

  /** One step of a commit on the one detached segment. */
  lemma GoneRun(g: Config, states: seq<Mgr>, events: seq<Event>, x: Seg, e: WalSystem.Event)
    returns (states': seq<Mgr>, events': seq<Event>)
    requires IsRun(g, states, events) && AloneGone(states[|events|], x) && CommitStep(x, e)
    ensures IsRun(g, states', events') && |events'| == |events| + 1 && states <= states' && events <= events'
    ensures AloneGone(states'[|events'|], Stepped(g, x, e)) && states'[|events'|].live == states[|events|].live
  {
    var m := GoneStep(g, states[|events|], x, e);
    states', events' := Extend(g, states, events, GoneCommit(x, e), m);
  }

  ghost predicate AloneGone(m: Mgr, x: Seg) {
    m.live != [] && m.gone == {x} && m.closed == {}
  }

  /** The rest of a commit on a detached segment. */
  lemma GoneCommitReturns(g: Config, states: seq<Mgr>, events: seq<Event>, x: Seg)
    returns (states': seq<Mgr>, events': seq<Event>, x': Seg)
    requires IsRun(g, states, events) && Entered(g, x) && AloneGone(states[|events|], x)
    ensures IsRun(g, states', events') && |events'| == |events| + 3 && states <= states' && events <= events'
    ensures AloneGone(states'[|events'|], x') && states'[|events'|].live == states[|events|].live
    ensures x'.base == 0 && x'.sys.calls == map[0 := WalSystem.Returned(1, true)] && 0 in x'.sys.acked
  {
    CallLeads(g, x);
    states', events' := GoneRun(g, states, events, x, WalSystem.TakeTurn(0));
    x' := Stepped(g, x, WalSystem.TakeTurn(0));
    CallSyncs(g, x');
    states', events' := GoneRun(g, states', events', x', WalSystem.FinishSync(0, true));
    x' := Stepped(g, x', WalSystem.FinishSync(0, true));
    CallReturns(g, x');
    states', events' := GoneRun(g, states', events', x', WalSystem.TakeTurn(0));
    x' := Stepped(g, x', WalSystem.TakeTurn(0));
  }

  /** For every retention period: an append whose Commit is under way when its segment is sealed, expires and is
      detached. The Commit then returns without error, and the record it acknowledges is already out of retention. */
  lemma DetachedUnderCommit(g: Config)
    returns (states: seq<Mgr>, events: seq<Event>, x: Seg, x': Seg)
    requires Tiny(g)
    ensures IsRun(g, states, events) && |events| == 7 && events[3] == Detach(g.retention)
    ensures x in states[3].live && UnderCommit(x, 0) && states[4].gone == {x}
    ensures states[7].gone == {x'} && x'.base == x.base && 0 in x'.sys.calls
    ensures x'.sys.calls[0] == WalSystem.Returned(1, true) && 0 in x'.sys.acked
    ensures states[7].live != [] && ManagerRead(g, states[7].live, 0) == OutOfRetention(0, 1)
  {
    states, events := EnterThenAppend(g);
    x := states[3].live[0];
    var m := DetachesFirst(g, states[3]);
    states, events := Extend(g, states, events, Detach(g.retention), m);
    states, events, x' := GoneCommitReturns(g, states, events, x);
    UnownedRead(g, m.live, 0);
  }
}
