/** The segmented log as a list of payloads with an earliest offset. */
module SegmentList {
  import opened Bytes
  import opened WalFormat
  import opened WalReading
  import opened WalLog
  import opened Segments
  import opened SegmentInvariant
  import opened SegmentSteps
  import opened SegmentReads
  import WalSystem

  // ---------- appends take the offset at the head ----------

  lemma AppendTakesHead(g: Config, live: seq<Seg>, data: seq<byte>, now: Time)
    requires live != []
    ensures End(Active(Rolled(g, live, now))) == End(Active(live))
    ensures var o := AssignedOffset(g, live, data, now); o.Some? ==> o.value == End(Active(live)) && |data| <= MAX_RECORD
  {
  }

  /** Nothing on record lies at or past the head. */
  lemma RecordIsBelowHead(g: Config, m: Mgr, o: nat)
    requires FilesOk(g, m) && LogOk(m) && o in m.log
    ensures o < End(Active(m.live))
  {
    var a := Active(m.live);
    if o < m.live[0].base {
      assert m.live[0].base <= a.base;
    } else {
      var x :| x in m.live && Contains(x, o);
      assert IsFile(m, x);
      ActiveIsLast(g, m, x);
    }
  }

  // ---------- every step keeps the record ----------

  lemma RollKeepsLog(g: Config, m: Mgr, now: Time)
    requires FilesOk(g, m) && LogOk(m)
    ensures LogOk(m.(live := Rolled(g, m.live, now)))
  {
    var m', a := m.(live := Rolled(g, m.live, now)), Active(m.live);
    forall x | IsFile(m', x) ensures Recorded(x, m.log) {
      if x != NewSegment(End(a), now) {
        assert IsFile(m, x);
      }
    }
    forall o <- m.log ensures o < m'.live[0].base || Held(m'.live, o) {
      if o >= m.live[0].base {
        var x :| x in m.live && Contains(x, o);
        assert x in m'.live;
      }
    }
  }

  lemma RecordedStill(x: Seg, log: map<nat, Payload>, o: nat, p: Payload)
    requires Recorded(x, log) && o !in log
    ensures Recorded(x, log[o := p])
  {
    var log' := log[o := p];
    forall i: nat ensures OnRecord(x, log', i) {
      assert OnRecord(x, log, i);
    }
  }

  /** The active segment takes one more record, which goes on record at the head. */
  lemma GrowKeepsLog(g: Config, m: Mgr, x': Seg, p: Payload)
    requires FilesOk(g, m) && LogOk(m) && SegOk(g, x') && x'.base == Active(m.live).base
    requires x'.sys.ps == Active(m.live).sys.ps + [p] && Count(x') == Count(Active(m.live)) + 1
    ensures LogOk(m.(live := m.live[|m.live| - 1 := x'], log := m.log[End(Active(m.live)) := p]))
  {
    var last, a, head := |m.live| - 1, Active(m.live), End(Active(m.live));
    var live', log' := m.live[last := x'], m.log[head := p];
    var m' := m.(live := live', log := log');
    assert head !in m.log by {
      if head in m.log {
        RecordIsBelowHead(g, m, head);
      }
    }
    ActiveOk(g, m);
    assert IsFile(m, a) && Recorded(a, m.log);
    GrownRecorded(a, x', m.log, p);
    forall x | IsFile(m', x) ensures Recorded(x, log') {
      if x != x' {
        assert IsFile(m, x);
        RecordedStill(x, m.log, head, p);
      }
    }
    assert live'[last] == x';
    forall o <- log' ensures o < live'[0].base || Held(live', o) {
      if o == head {
        assert x' in live' && Contains(x', o);
      } else if o >= m.live[0].base {
        var x :| x in m.live && Contains(x, o);
        HeldStill(m.live, x', x, o);
      }
    }
  }

  lemma GrownRecorded(a: Seg, x': Seg, log: map<nat, Payload>, p: Payload)
    requires Recorded(a, log) && x'.base == a.base && x'.sys.ps == a.sys.ps + [p] && Count(a) == |a.sys.ps|
    requires End(a) !in log
    ensures Recorded(x', log[End(a) := p])
  {
    var log' := log[End(a) := p];
    forall i: nat ensures OnRecord(x', log', i) {
      assert OnRecord(a, log, i);
    }
  }

  lemma HeldStill(live: seq<Seg>, x': Seg, x: Seg, o: nat)
    requires live != [] && x'.base == Active(live).base && Count(Active(live)) <= Count(x')
    requires x in live && Contains(x, o)
    ensures Held(live[|live| - 1 := x'], o)
  {
    var live' := live[|live| - 1 := x'];
    var i :| 0 <= i < |live| && live[i] == x;
    assert live'[i] in live' && Contains(live'[i], o);
  }

  lemma SameLog(m: Mgr, m': Mgr)
    requires LogOk(m) && m'.live == m.live && m'.gone == m.gone && m'.log == m.log
    ensures LogOk(m')
  {
    forall x | IsFile(m', x) ensures Recorded(x, m'.log) {
      assert IsFile(m, x);
    }
  }

  lemma ReserveKeepsLog(g: Config, m: Mgr, data: seq<byte>, now: Time)
    requires FixedWidth(g.c) && FilesOk(g, m) && LogOk(m)
    ensures var a := Active(m.live);
            var live := m.live[|m.live| - 1 := ReserveIn(g, a, data, now)];
            if Reserve(g.c, a.sys.w, data).1.Reserved?
            then |data| <= MAX_RECORD && LogOk(m.(live := live, log := m.log[End(a) := data]))
            else live == m.live
  {
    var a := Active(m.live);
    ActiveOk(g, m);
    ReserveInOk(g, a, data, now);
    if Reserve(g.c, a.sys.w, data).1.Reserved? {
      GrowKeepsLog(g, m, ReserveIn(g, a, data, now), data);
    }
  }

  lemma AppendKeepsLog(g: Config, m: Mgr, data: seq<byte>, now: Time)
    requires FixedWidth(g.c) && 1 <= g.maxBytes && FilesOk(g, m) && LogOk(m)
    ensures LogOk(Next(g, m, AppendReserve(data, now)))
  {
    var mid, m' := m.(live := Rolled(g, m.live, now)), Next(g, m, AppendReserve(data, now));
    RollKeepsFiles(g, m, now);
    RollKeepsLog(g, m, now);
    ReserveKeepsLog(g, mid, data, now);
    AppendTakesHead(g, m.live, data, now);
    SameLog(mid.(live := m'.live, log := m'.log), m');
  }

  lemma CommitKeepsLog(m: Mgr, m': Mgr, x: Seg, x': Seg)
    requires LogOk(m) && Replaces(m, m', x, x') && x'.sys.ps == x.sys.ps && m'.log == m.log
    requires |m'.live| == |m.live|
    requires forall i :: 0 <= i < |m.live| ==> m'.live[i].base == m.live[i].base && Count(m'.live[i]) == Count(m.live[i])
    ensures LogOk(m')
  {
    forall y | IsFile(m', y) ensures Recorded(y, m'.log) {
      assert Recorded(x, m.log);
      if y == x' {
        forall i: nat ensures OnRecord(y, m.log, i) {
          assert OnRecord(x, m.log, i);
        }
      } else {
        assert Recorded(y, m.log);
      }
    }
    forall o <- m'.log ensures o < m'.live[0].base || Held(m'.live, o) {
      if o >= m.live[0].base {
        var y :| y in m.live && Contains(y, o);
        var i :| 0 <= i < |m.live| && m.live[i] == y;
        assert m'.live[i] in m'.live && Contains(m'.live[i], o);
      }
    }
  }

  lemma LiveCommitKeepsLog(g: Config, m: Mgr, i: nat, e: WalSystem.Event)
    requires FixedWidth(g.c) && FilesOk(g, m) && LogOk(m) && Enabled(m, LiveCommit(i, e))
    ensures LogOk(Next(g, m, LiveCommit(i, e)))
  {
    var x := m.live[i];
    assert IsFile(m, x) && SegOk(g, x);
    SteppedOk(g, x, e);
    LiveReplaces(g, m, i, Stepped(g, x, e));
    CommitKeepsLog(m, Next(g, m, LiveCommit(i, e)), x, Stepped(g, x, e));
  }

  lemma GoneCommitKeepsLog(g: Config, m: Mgr, x: Seg, e: WalSystem.Event)
    requires FixedWidth(g.c) && FilesOk(g, m) && LogOk(m) && Enabled(m, GoneCommit(x, e))
    ensures LogOk(Next(g, m, GoneCommit(x, e)))
  {
    assert IsFile(m, x) && SegOk(g, x);
    SteppedOk(g, x, e);
    GoneReplaces(g, m, x, Stepped(g, x, e));
    CommitKeepsLog(m, Next(g, m, GoneCommit(x, e)), x, Stepped(g, x, e));
  }

  lemma DetachKeepsLog(g: Config, m: Mgr, now: Time)
    requires FilesOk(g, m) && LogOk(m)
    ensures LogOk(Detached(g, m, now))
  {
    var v, m' := Victims(g, m.live, now), Detached(g, m, now);
    forall x | IsFile(m', x) ensures Recorded(x, m'.log) {
      DetachSameFiles(g, m, now, x);
    }
    assert m'.live[0] == m.live[v];
    forall o <- m.log ensures o < m'.live[0].base || Held(m'.live, o) {
      if o >= m.live[v].base {
        assert m.live[0].base <= m.live[v].base;
        var x :| x in m.live && Contains(x, o);
        DetachedHolds(g, m, v, x, o);
      }
    }
  }

  lemma DetachedHolds(g: Config, m: Mgr, v: nat, x: Seg, o: nat)
    requires FilesOk(g, m) && v < |m.live| && x in m.live && Contains(x, o) && m.live[v].base <= o
    ensures Held(m.live[v..], o)
  {
    var i :| 0 <= i < |m.live| && m.live[i] == x;
    assert IsFile(m, x) && IsFile(m, m.live[v]) && Apart(x, m.live[v]);
    assert i >= v;
    assert m.live[v..][i - v] == x;
  }

  lemma CrashKeepsLog(g: Config, m: Mgr, survivors: seq<Seg>, losses: seq<Loss>)
    requires FixedWidth(g.c) && FilesOk(g, m) && LogOk(m) && CrashLeaves(m, survivors, losses)
    ensures LogOk(Reopened(g, m, survivors, losses))
  {
    var m' := Reopened(g, m, survivors, losses);
    assert m.live[0] in survivors;
    forall x | IsFile(m', x) ensures Recorded(x, m'.log) {
      var i :| 0 <= i < |m'.live| && m'.live[i] == x;
      CrashKeepsSegment(g, m, survivors, losses, i);
      assert Recorded(survivors[i], m.log);
      ShorterRecorded(survivors[i], x, m.log, m'.live);
    }
  }

  lemma ShorterRecorded(x: Seg, x': Seg, log: map<nat, Payload>, live: seq<Seg>)
    requires Recorded(x, log) && x'.base == x.base && x'.sys.ps <= x.sys.ps && Count(x') == |x'.sys.ps| && x' in live
    ensures Recorded(x', StillHeld(log, live))
  {
    forall i: nat ensures OnRecord(x', StillHeld(log, live), i) {
      assert OnRecord(x, log, i);
      assert i < |x'.sys.ps| ==> Contains(x', x'.base + i);
    }
  }

  lemma StepKeepsLog(g: Config, m: Mgr, e: Event)
    requires FixedWidth(g.c) && 1 <= g.maxBytes && FilesOk(g, m) && LogOk(m) && Enabled(m, e)
    ensures LogOk(Next(g, m, e))
  {
    match e
    case AppendReserve(data, now) => AppendKeepsLog(g, m, data, now);
    case LiveCommit(i, e') => LiveCommitKeepsLog(g, m, i, e');
    case GoneCommit(x, e') => GoneCommitKeepsLog(g, m, x, e');
    case StartRead(r, offset) => SameLog(m, Next(g, m, e));
    case FinishRead(r) => SameLog(m, Next(g, m, e));
    case Detach(now) => DetachKeepsLog(g, m, now);
    case CloseVictim(x) => SameLog(m, Next(g, m, e));
    case Crash(survivors, losses) => CrashKeepsLog(g, m, survivors, losses);
  }

  lemma {:induction false} RunHasLog(g: Config, states: seq<Mgr>, events: seq<Event>, k: nat)
    requires IsRun(g, states, events) && k < |states|
    ensures LogOk(states[k])
  {
    if k > 0 {
      RunHasLog(g, states, events, k - 1);
      RunHasCore(g, states, events, k - 1);
      RunStep(g, states, events, k - 1);
      StepKeepsLog(g, states[k - 1], events[k - 1]);
    }
  }

  // ---------- contiguity ----------

  lemma RollKeepsContiguous(g: Config, live: seq<Seg>, now: Time)
    requires live != [] && Contiguous(live)
    ensures Contiguous(Rolled(g, live, now))
  {
    var live' := Rolled(g, live, now);
    forall i, j | 0 <= i < j < |live'| && j == i + 1 ensures End(live'[i]) == live'[j].base {
      if j < |live| {
        assert End(live[i]) == live[j].base;
      }
    }
  }

  /** Segments that keep their bases and, but for the last, their sizes. */
  lemma SameEnds(xs: seq<Seg>, ys: seq<Seg>)
    requires Contiguous(xs) && |ys| == |xs|
    requires forall i :: 0 <= i < |xs| ==> ys[i].base == xs[i].base
    requires forall i :: 0 <= i < |xs| - 1 ==> Count(ys[i]) == Count(xs[i])
    ensures Contiguous(ys)
  {
    forall i, j | 0 <= i < j < |ys| && j == i + 1 ensures End(ys[i]) == ys[j].base {
      assert End(xs[i]) == xs[j].base;
    }
  }

  lemma AppendKeepsContiguous(g: Config, live: seq<Seg>, data: seq<byte>, now: Time)
    requires live != [] && Contiguous(live)
    ensures Contiguous(AppendedTo(g, live, data, now))
  {
    RollKeepsContiguous(g, live, now);
    SameEnds(Rolled(g, live, now), AppendedTo(g, live, data, now));
  }

  lemma DetachKeepsContiguous(live: seq<Seg>, v: nat)
    requires v <= |live| && Contiguous(live)
    ensures Contiguous(live[v..])
  {
    var rest := live[v..];
    forall i, j | 0 <= i < j < |rest| && j == i + 1 ensures End(rest[i]) == rest[j].base {
      assert rest[i] == live[v + i] && rest[j] == live[v + j];
    }
  }

  lemma StepKeepsContiguous(g: Config, m: Mgr, e: Event)
    requires FixedWidth(g.c) && FilesOk(g, m) && Enabled(m, e) && !e.Crash? && Contiguous(m.live)
    ensures Contiguous(Next(g, m, e).live)
  {
    match e
    case AppendReserve(data, now) => AppendKeepsContiguous(g, m.live, data, now);
    case LiveCommit(i, e') =>
      assert IsFile(m, m.live[i]) && SegOk(g, m.live[i]);
      SteppedOk(g, m.live[i], e');
      SameEnds(m.live, m.live[i := Stepped(g, m.live[i], e')]);
    case GoneCommit(x, e') =>
    case StartRead(r, offset) =>
    case FinishRead(r) =>
    case Detach(now) => DetachKeepsContiguous(m.live, Victims(g, m.live, now));
    case CloseVictim(x) =>
  }

  /** Contiguous segments stay so until a crash. A fresh log is contiguous. */
  lemma {:induction false} ContiguousStays(g: Config, states: seq<Mgr>, events: seq<Event>, j: nat, k: nat)
    requires IsRun(g, states, events) && CrashFree(events, j, k) && (j == 0 || Contiguous(states[j].live))
    ensures Contiguous(states[k].live)
    decreases k
  {
    if j < k {
      ContiguousStays(g, states, events, j, k - 1);
      RunHasCore(g, states, events, k - 1);
      RunStep(g, states, events, k - 1);
      StepKeepsContiguous(g, states[k - 1], events[k - 1]);
    }
  }

  // ---------- reads ----------

  lemma HeldIsRecorded(g: Config, m: Mgr, x: Seg, offset: nat)
    requires FilesOk(g, m) && LogOk(m) && IsFile(m, x) && Contains(x, offset)
    ensures Count(x) == |x.sys.ps| && offset in m.log && x.sys.ps[offset - x.base] == m.log[offset]
  {
    assert SegOk(g, x) && Recorded(x, m.log);
    assert OnRecord(x, m.log, offset - x.base);
  }

  lemma LogRead(g: Config, m: Mgr, offset: nat)
    requires FixedWidth(g.c) && FilesOk(g, m) && LogOk(m)
    ensures ManagerRead(g, m.live, offset) ==
            if offset < m.live[0].base then OutOfRetention(offset, m.live[0].base)
            else if offset in m.log then Answer(Data(m.log[offset]))
            else Answer(Eof)
  {
    if offset < m.live[0].base {
      BelowFirst(m.live, offset);
    } else if offset in m.log {
      var x :| x in m.live && Contains(x, offset);
      LiveReadIsLookup(g, m, x, offset);
      HeldIsRecorded(g, m, x, offset);
    } else {
      forall x <- m.live ensures !Contains(x, offset) {
        if Contains(x, offset) {
          HeldIsRecorded(g, m, x, offset);
        }
      }
      UnownedRead(g, m.live, offset);
    }
  }

  /** In every reachable state, crashes included, a read is a lookup of the payload on record: refused as out of
      retention exactly below the earliest offset, else the payload accepted at that offset and not lost in a crash
      since, else the end of the log. */
  lemma ReadsAreLookups(g: Config, states: seq<Mgr>, events: seq<Event>, k: nat, offset: nat)
    requires IsRun(g, states, events) && k < |states|
    ensures states[k].live != []
    ensures var m := states[k];
            ManagerRead(g, m.live, offset) ==
            if offset < m.live[0].base then OutOfRetention(offset, m.live[0].base)
            else if offset in m.log then Answer(Data(m.log[offset]))
            else Answer(Eof)
  {
    RunHasCore(g, states, events, k);
    RunHasLog(g, states, events, k);
    LogRead(g, states[k], offset);
  }

  /** In every reachable state whose segments are contiguous the log is a plain list with an earliest offset: every
      offset from the earliest to the head is on record, and no other from there on; so a read finds the end exactly
      at or past the head. */
  lemma ReadsLikeAList(g: Config, states: seq<Mgr>, events: seq<Event>, k: nat, offset: nat)
    requires IsRun(g, states, events) && k < |states| && Contiguous(states[k].live)
    ensures states[k].live != []
    ensures var m := states[k];
            && (m.live[0].base <= offset ==> (offset in m.log <==> offset < End(Active(m.live))))
            && ManagerRead(g, m.live, offset) ==
               if offset < m.live[0].base then OutOfRetention(offset, m.live[0].base)
               else if offset >= End(Active(m.live)) then Answer(Eof)
               else if offset in m.log then Answer(Data(m.log[offset])) else Answer(Eof)
  {
    var m := states[k];
    ReadsAreLookups(g, states, events, k, offset);
    RunHasCore(g, states, events, k);
    RunHasLog(g, states, events, k);
    if offset in m.log {
      RecordIsBelowHead(g, m, offset);
    } else if m.live[0].base <= offset < End(Active(m.live)) {
      NoGaps(g, m, offset);
    }
  }

  lemma NoGaps(g: Config, m: Mgr, offset: nat)
    requires FilesOk(g, m) && LogOk(m) && Contiguous(m.live) && m.live[0].base <= offset < End(Active(m.live))
    ensures offset in m.log
  {
    var i := OwnedOrGap(m.live, offset);
    assert i + 1 < |m.live| ==> End(m.live[i]) == m.live[i + 1].base;
    HeldIsRecorded(g, m, m.live[i], offset);
  }

  /** In every reachable state an append is given the offset at the head, which is past everything on record. */
  lemma OffsetsAreDense(g: Config, states: seq<Mgr>, events: seq<Event>, k: nat, data: seq<byte>, now: Time, o: nat)
    requires IsRun(g, states, events) && k < |states|
    ensures states[k].live != []
    ensures var a := AssignedOffset(g, states[k].live, data, now); a.Some? ==> a.value == End(Active(states[k].live))
    ensures o in states[k].log ==> o < End(Active(states[k].live))
  {
    RunHasCore(g, states, events, k);
    RunHasLog(g, states, events, k);
    AppendTakesHead(g, states[k].live, data, now);
    if o in states[k].log {
      RecordIsBelowHead(g, states[k], o);
    }
  }
}
