/** Retention: what a pass detaches, and that no read is cut off by it. */
module SegmentRetention {
  import opened Bytes
  import opened WalFormat
  import opened WalReading
  import opened Segments
  import opened SegmentInvariant
  import opened SegmentSteps
  import opened SegmentReads
  import opened SegmentList
  import WalSystem

  // ---------- readers ----------

  /** No read runs on a closed segment: whatever appends, detachments and closings came in between, a routed read
      finds its segment open, and gets the record at its offset. */
  lemma NoReadIsCutOff(g: Config, states: seq<Mgr>, events: seq<Event>, k: nat, r: ReaderId) returns (x: Seg)
    requires IsRun(g, states, events) && k < |states| && r in states[k].readers
    ensures IsFile(states[k], x) && x.base == states[k].readers[r].base && x.base !in states[k].closed
    ensures var rd := states[k].readers[r];
            x.base <= rd.offset < x.base + |x.sys.ps| && Delivered(g, x, rd) == Data(x.sys.ps[rd.offset - x.base])
  {
    var m := states[k];
    RunHasCore(g, states, events, k);
    assert ReaderOk(m, m.readers[r]);
    x :| IsFile(m, x) && x.base !in m.closed && Serves(x, m.readers[r]);
    assert SegOk(g, x);
    ServedRead(g, x, m.readers[r]);
  }

  lemma ServedRead(g: Config, x: Seg, rd: Reading)
    requires FixedWidth(g.c) && SegOk(g, x) && Serves(x, rd)
    ensures x.base <= rd.offset < x.base + |x.sys.ps| && Delivered(g, x, rd) == Data(x.sys.ps[rd.offset - x.base])
  {
    SegmentReadIsLookup(g, x, rd.offset);
  }

  /** That record is the one on record at the offset, even from a detached segment. */
  lemma RoutedReadIsLookup(g: Config, states: seq<Mgr>, events: seq<Event>, k: nat, r: ReaderId) returns (x: Seg)
    requires IsRun(g, states, events) && k < |states| && r in states[k].readers
    ensures IsFile(states[k], x) && x.base == states[k].readers[r].base && x.base !in states[k].closed
    ensures states[k].readers[r].offset in states[k].log
    ensures Delivered(g, x, states[k].readers[r]) == Data(states[k].log[states[k].readers[r].offset])
  {
    var m, rd := states[k], states[k].readers[r];
    x := NoReadIsCutOff(g, states, events, k, r);
    RunHasLog(g, states, events, k);
    assert Recorded(x, m.log);
    assert OnRecord(x, m.log, rd.offset - x.base);
  }

  /** A detached segment never gains a reader. */
  lemma DetachedNeverGains(g: Config, states: seq<Mgr>, events: seq<Event>, k: nat, x: Seg, r: ReaderId)
    requires IsRun(g, states, events) && k < |events| && x in states[k].gone
    requires r in states[k + 1].readers && states[k + 1].readers[r].base == x.base
    ensures r in states[k].readers && states[k].readers[r] == states[k + 1].readers[r]
  {
    RunHasCore(g, states, events, k);
    RunStep(g, states, events, k);
    if events[k].StartRead? {
      NewReaderIsLive(states[k], events[k].r, events[k].offset, r);
    }
  }

  lemma NewReaderIsLive(m: Mgr, r: ReaderId, offset: nat, q: ReaderId)
    requires InOrder(m) && r !in m.readers && q in Routed(m, r, offset).readers
    ensures (q in m.readers && Routed(m, r, offset).readers[q] == m.readers[q])
         || Routed(m, r, offset).readers[q].base >= m.live[0].base
  {
    if Route(m.live, offset).Owner? {
      RoutesToLive(m, offset);
    }
  }

  /** A segment is closed only while nobody reads it. */
  lemma ClosedWithoutReaders(g: Config, states: seq<Mgr>, events: seq<Event>, k: nat, r: ReaderId)
    requires IsRun(g, states, events) && k < |events| && events[k].CloseVictim? && r in states[k].readers
    ensures states[k].readers[r].base != events[k].x.base
  {
    var m, x := states[k], events[k].x;
    RunHasCore(g, states, events, k);
    RunStep(g, states, events, k);
    assert Refs(m, x.base) == |ReadersOf(m.readers, x.base)|;
    assert r !in ReadersOf(m.readers, x.base);
  }

  // ---------- what a pass detaches ----------

  /** A run of segments from the first, never the active one, all with their last append at or before the cutoff;
      it ends only at the active segment, at one still within the window, or at the limit. */
  lemma {:induction false} VictimsAre(live: seq<Seg>, cutoff: Time, limit: nat, k: nat)
    requires k < |live| && (limit > 0 ==> k <= limit)
    requires forall i :: 0 <= i < k ==> live[i].lastAppend <= cutoff
    ensures var v := VictimsFrom(live, cutoff, limit, k);
            && v < |live|
            && (forall i :: 0 <= i < v ==> live[i].lastAppend <= cutoff)
            && (limit > 0 ==> v <= limit)
            && (v == |live| - 1 || live[v].lastAppend > cutoff || (limit > 0 && v == limit))
    decreases |live| - k
  {
    if k + 1 < |live| && live[k].lastAppend <= cutoff && !(limit > 0 && k >= limit) {
      VictimsAre(live, cutoff, limit, k + 1);
    }
  }

  lemma DetachShiftsRoutes(live: seq<Seg>, v: nat, offset: nat)
    requires Ordered(live) && v < |live|
    ensures RouteIndex(live[v..], offset) == if live[v].base <= offset then RouteIndex(live, offset) - v else -1
  {
    var rest := live[v..];
    RouteIndexIsLast(live, offset);
    RouteIndexIsLast(rest, offset);
    var i, j := RouteIndex(live, offset), RouteIndex(rest, offset);
    assert j < 0 || live[v].base <= rest[j].base;
    assert j + 1 < |rest| ==> rest[j + 1] == live[v + j + 1];
    if live[v].base <= offset {
      assert v <= i;
      assert rest[i - v] == live[i];
    }
  }

  lemma DetachKeepsRoutes(live: seq<Seg>, v: nat, offset: nat)
    requires Ordered(live) && v < |live|
    ensures offset < live[v].base ==> Route(live[v..], offset) == TooOld(live[v].base)
    ensures live[v].base <= offset ==>
              match Route(live, offset)
              case Owner(i) => v <= i && Route(live[v..], offset) == Owner(i - v)
              case TooOld(_) => false
              case PastEnd => Route(live[v..], offset) == PastEnd
  {
    DetachShiftsRoutes(live, v, offset);
    assert live[0].base <= live[v].base;
    var i := RouteIndex(live, offset);
    if live[v].base <= offset {
      RouteIndexIsLast(live, offset);
      assert live[v..][i - v] == live[i];
    }
  }

  /** From any reachable state, a pass leaves the active segment, and so the head, as it is, and every read at or
      above the new earliest offset; below it every read is refused as out of retention. */
  lemma DetachKeepsReads(g: Config, states: seq<Mgr>, events: seq<Event>, k: nat, now: Time, offset: nat)
    requires IsRun(g, states, events) && k < |states|
    ensures states[k].live != []
    ensures var before, after := states[k].live, Detached(g, states[k], now).live;
            && Active(after) == Active(before)
            && ManagerRead(g, after, offset) ==
               if offset >= after[0].base then ManagerRead(g, before, offset) else OutOfRetention(offset, after[0].base)
  {
    RunHasCore(g, states, events, k);
    var m := states[k];
    var v := Victims(g, m.live, now);
    DetachKeepsRoutes(m.live, v, offset);
  }

  /** From any reachable state, whatever the limit and the clock, a pass never takes the active segment or one whose
      last append is after the cutoff. */
  lemma PassSpares(g: Config, states: seq<Mgr>, events: seq<Event>, k: nat, now: Time, i: nat)
    requires IsRun(g, states, events) && k < |states| && i < |states[k].live|
    ensures var live := states[k].live;
            i == |live| - 1 || live[i].lastAppend > now - g.retention ==> Victims(g, live, now) <= i
  {
    VictimsAre(states[k].live, now - g.retention, g.limit, 0);
  }

  predicate Expired(g: Config, x: Seg, now: Time) {
    x.lastAppend <= now - g.retention
  }

  /** A pass without a limit takes exactly the expired segments other than the active one, from whatever state it
      starts, if and only if no segment within the window stands before an expired one. */
  lemma PassIsExactIff(g: Config, live: seq<Seg>, now: Time)
    requires live != [] && g.limit == 0
    ensures (forall i :: 0 <= i < |live| ==> (i < Victims(g, live, now) <==> i < |live| - 1 && Expired(g, live[i], now)))
            <==>
            (forall i, j :: 0 <= i < j < |live| - 1 && Expired(g, live[j], now) ==> Expired(g, live[i], now))
  {
    var v := Victims(g, live, now);
    VictimsAre(live, now - g.retention, 0, 0);
    if forall i, j :: 0 <= i < j < |live| - 1 && Expired(g, live[j], now) ==> Expired(g, live[i], now) {
      forall i | 0 <= i < |live| ensures i < v <==> i < |live| - 1 && Expired(g, live[i], now) {
        assert v < i < |live| - 1 && Expired(g, live[i], now) ==> Expired(g, live[v], now);
      }
    }
  }

  // ---------- times over runs ----------

  lemma ReserveKeepsDates(g: Config, m: Mgr, data: seq<byte>, now: Time)
    requires m.live != [] && DatesOk(m) && m.clock <= now
    ensures DatesOk(m.(live := m.live[|m.live| - 1 := ReserveIn(g, Active(m.live), data, now)], clock := now))
  {
    var a := Active(m.live);
    var x' := ReserveIn(g, a, data, now);
    assert a in m.live;
    forall x <- m.live[|m.live| - 1 := x'] ensures Dated(x) && forall t <- x.times :: t <= now {
      assert x == x' || x in m.live;
    }
  }

  lemma SameDates(m: Mgr, m': Mgr)
    requires DatesOk(m) && (forall x <- m'.live :: x in m.live || x.times == []) && m.clock <= m'.clock
    ensures DatesOk(m')
  {
  }

  lemma StepKeepsDates(g: Config, m: Mgr, e: Event)
    requires m.live != [] && DatesOk(m) && Enabled(m, e)
    requires e.AppendReserve? ==> m.clock <= e.now
    requires e.Crash? ==> forall x <- Next(g, m, e).live :: Dated(x)
    ensures DatesOk(Next(g, m, e))
  {
    match e
    case AppendReserve(data, now) =>
      var mid := m.(live := Rolled(g, m.live, now));
      SameDates(m, mid);
      ReserveKeepsDates(g, mid, data, now);
      SameDates(mid.(live := AppendedTo(g, m.live, data, now), clock := now), Next(g, m, e));
    case LiveCommit(i, e') =>
      assert m.live[i] in m.live;
      forall x <- Next(g, m, e).live ensures Dated(x) && forall t <- x.times :: t <= m.clock {
        assert x == Stepped(g, m.live[i], e') || x in m.live;
      }
    case GoneCommit(x, e') => SameDates(m, Next(g, m, e));
    case StartRead(r, offset) => SameDates(m, Next(g, m, e));
    case FinishRead(r) => SameDates(m, Next(g, m, e));
    case Detach(now) => SameDates(m, Next(g, m, e));
    case CloseVictim(x) => SameDates(m, Next(g, m, e));
    case Crash(survivors, losses) => CrashKeepsDates(g, m, survivors, losses);
  }

  lemma {:induction false} LatestIsLatest(t: Time, xs: seq<Seg>)
    ensures t <= Latest(t, xs) && forall x <- xs :: x.lastAppend <= Latest(t, xs)
  {
    if xs != [] {
      LatestIsLatest(t, xs[..|xs| - 1]);
      assert xs == xs[..|xs| - 1] + [xs[|xs| - 1]];
    }
  }

  lemma CrashKeepsDates(g: Config, m: Mgr, survivors: seq<Seg>, losses: seq<Loss>)
    requires CrashLeaves(m, survivors, losses)
    requires forall x <- Reopened(g, m, survivors, losses).live :: Dated(x)
    ensures DatesOk(Reopened(g, m, survivors, losses))
  {
    var live := Reopened(g, m, survivors, losses).live;
    LatestIsLatest(m.clock, live);
    forall x <- live ensures forall t <- x.times :: t <= Latest(m.clock, live) {
      assert Dated(x);
    }
  }

  lemma {:induction false} RunHasDates(g: Config, states: seq<Mgr>, events: seq<Event>, k: nat)
    requires IsRun(g, states, events) && SteadyClock(states, events, k) && CrashesDated(states, events, k)
    ensures DatesOk(states[k])
  {
    if k > 0 {
      RunHasDates(g, states, events, k - 1);
      RunStep(g, states, events, k - 1);
      assert events[k - 1].Crash? ==> forall x <- states[k].live :: Dated(x);
      StepKeepsDates(g, states[k - 1], events[k - 1]);
    }
  }

  /** In every run in which the clock does not go back and a crash leaves no file dated before its records, every record
      of a segment that a pass detaches was appended at or before the cutoff. */
  lemma DetachedAreOld(g: Config, states: seq<Mgr>, events: seq<Event>, k: nat, now: Time, i: nat)
    requires IsRun(g, states, events) && SteadyClock(states, events, k) && CrashesDated(states, events, k)
    requires i < |states[k].live| && i < Victims(g, states[k].live, now)
    ensures i < |states[k].live| - 1 && forall t <- states[k].live[i].times :: t <= now - g.retention
  {
    var live := states[k].live;
    RunHasDates(g, states, events, k);
    VictimsAre(live, now - g.retention, g.limit, 0);
    assert live[i] in live && Dated(live[i]);
  }

  // ---------- last appends in order ----------

  lemma RollKeepsClock(g: Config, m: Mgr, now: Time)
    requires m.live != [] && ClockOk(m) && m.clock <= now
    ensures ClockOk(m.(live := Rolled(g, m.live, now), clock := now))
  {
    var m' := m.(live := Rolled(g, m.live, now), clock := now);
    forall i, j | 0 <= i < j < |m'.live| ensures m'.live[i].lastAppend <= m'.live[j].lastAppend {
      if j < |m.live| {
        assert m.live[i].lastAppend <= m.live[j].lastAppend;
      } else {
        assert m.live[i] in m.live;
      }
    }
  }

  /** Replacing one segment by one with the same last append or, if it is the last, one that is now. */
  lemma ReplaceKeepsClock(m: Mgr, i: nat, x': Seg)
    requires i < |m.live| && ClockOk(m)
    requires x'.lastAppend == m.live[i].lastAppend || (i == |m.live| - 1 && x'.lastAppend == m.clock)
    ensures ClockOk(m.(live := m.live[i := x']))
  {
    var m' := m.(live := m.live[i := x']);
    assert m.live[i] in m.live;
    forall x <- m'.live ensures x.lastAppend <= m.clock {
      assert x == x' || x in m.live;
    }
    forall a, b | 0 <= a < b < |m'.live| ensures m'.live[a].lastAppend <= m'.live[b].lastAppend {
      assert m.live[a].lastAppend <= m.live[b].lastAppend;
      assert m.live[a] in m.live;
    }
  }

  lemma AppendKeepsClock(g: Config, m: Mgr, data: seq<byte>, now: Time)
    requires m.live != [] && ClockOk(m) && m.clock <= now
    ensures ClockOk(Next(g, m, AppendReserve(data, now)))
  {
    var mid := m.(live := Rolled(g, m.live, now), clock := now);
    RollKeepsClock(g, m, now);
    ReplaceKeepsClock(mid, |mid.live| - 1, ReserveIn(g, Active(mid.live), data, now));
    SameClock(mid.(live := AppendedTo(g, m.live, data, now)), Next(g, m, AppendReserve(data, now)));
  }

  lemma SameClock(m: Mgr, m': Mgr)
    requires ClockOk(m) && m'.live == m.live && m'.clock == m.clock
    ensures ClockOk(m')
  {
  }

  lemma DetachKeepsClock(g: Config, m: Mgr, now: Time)
    requires m.live != [] && ClockOk(m)
    ensures ClockOk(Detached(g, m, now))
  {
    var v, live' := Victims(g, m.live, now), Detached(g, m, now).live;
    forall i, j | 0 <= i < j < |live'| ensures live'[i].lastAppend <= live'[j].lastAppend {
      assert live'[i] == m.live[v + i] && live'[j] == m.live[v + j];
    }
  }

  lemma StepKeepsClock(g: Config, m: Mgr, e: Event)
    requires m.live != [] && ClockOk(m) && Enabled(m, e)
    requires e.AppendReserve? ==> m.clock <= e.now
    requires e.Crash? ==> TimesRise(Next(g, m, e).live)
    ensures ClockOk(Next(g, m, e))
  {
    match e
    case AppendReserve(data, now) => AppendKeepsClock(g, m, data, now);
    case LiveCommit(i, e') => ReplaceKeepsClock(m, i, Stepped(g, m.live[i], e'));
    case Detach(now) => DetachKeepsClock(g, m, now);
    case GoneCommit(x, e') => SameClock(m, Next(g, m, e));
    case StartRead(r, offset) => SameClock(m, Next(g, m, e));
    case FinishRead(r) => SameClock(m, Next(g, m, e));
    case CloseVictim(x) => SameClock(m, Next(g, m, e));
    case Crash(survivors, losses) => LatestIsLatest(m.clock, Next(g, m, e).live);
  }

  lemma {:induction false} RunHasClock(g: Config, states: seq<Mgr>, events: seq<Event>, k: nat)
    requires IsRun(g, states, events) && SteadyClock(states, events, k) && CrashesInOrder(states, events, k)
    ensures ClockOk(states[k])
  {
    if k > 0 {
      RunHasClock(g, states, events, k - 1);
      RunStep(g, states, events, k - 1);
      assert events[k - 1].Crash? ==> TimesRise(states[k].live);
      StepKeepsClock(g, states[k - 1], events[k - 1]);
    }
  }

  /** In every run in which the clock does not go back and crashes leave modification times in the order of the
      segments, a pass without a limit detaches exactly the expired segments other than the active one. */
  lemma RetentionIsExact(g: Config, states: seq<Mgr>, events: seq<Event>, k: nat, now: Time, i: nat)
    requires IsRun(g, states, events) && SteadyClock(states, events, k) && CrashesInOrder(states, events, k)
    requires i < |states[k].live| && g.limit == 0
    ensures i < Victims(g, states[k].live, now) <==>
            i < |states[k].live| - 1 && Expired(g, states[k].live[i], now)
  {
    RunHasClock(g, states, events, k);
    PassIsExactIff(g, states[k].live, now);
  }

  // ---------- segments under commit ----------

  /** A call of Commit that has not returned. */
  ghost predicate UnderCommit(x: Seg, t: WalSystem.ThreadId) {
    t in x.sys.calls && !x.sys.calls[t].Returned?
  }

  /** The promise that a segment under commit is not removed: in such a run a pass without a limit keeps it if and only
      if it is active or its last append is after the cutoff. */
  lemma CommitIsSparedIff(g: Config, states: seq<Mgr>, events: seq<Event>, k: nat, now: Time, i: nat,
                          t: WalSystem.ThreadId)
    requires IsRun(g, states, events) && SteadyClock(states, events, k) && CrashesInOrder(states, events, k)
    requires g.limit == 0 && i < |states[k].live| && UnderCommit(states[k].live[i], t)
    ensures states[k].live[i] in Detached(g, states[k], now).live <==>
            i == |states[k].live| - 1 || states[k].live[i].lastAppend > now - g.retention
  {
    var live := states[k].live;
    var v := Victims(g, live, now);
    RunHasCore(g, states, events, k);
    RetentionIsExact(g, states, events, k, now, i);
    if i < v {
      forall j | 0 <= j < |live[v..]| ensures live[v..][j] != live[i] {
        assert live[v..][j] == live[v + j];
      }
    } else {
      assert live[v..][i - v] == live[i];
    }
  }
}
