/** What a crash of the segmented log can and cannot lose. */
module SegmentDurability {
  import opened Bytes
  import opened WalFormat
  import opened WalReading
  import opened Segments
  import opened SegmentInvariant
  import opened SegmentSteps
  import opened SegmentReads
  import WalSystem

  // ---------- the promise to an acknowledged record ----------

  /** The segment with this base holds `p` as its record `o`, and has acknowledged it. */
  ghost predicate Holds(x: Seg, b: nat, o: nat, p: Payload) {
    x.base == b && o in x.sys.acked && o < Count(x) && o < |x.sys.ps| && x.sys.ps[o] == p
  }

  ghost predicate Present(m: Mgr, b: nat, o: nat, p: Payload) {
    exists x :: IsFile(m, x) && Holds(x, b, o, p)
  }

  /** The segment does not reach into the offsets from `b` to `b + o`. */
  ghost predicate Clear(x: Seg, b: nat, o: nat) {
    End(x) <= b || x.base > b + o
  }

  /** The segment was detached and its file is gone: nothing else has taken its offsets, or will. */
  ghost predicate Missing(m: Mgr, b: nat, o: nat) {
    && m.live != [] && b in m.dropped && b + o < Active(m.live).base
    && forall x {:trigger Clear(x, b, o)} :: IsFile(m, x) ==> Clear(x, b, o)
  }

  ghost predicate Promised(m: Mgr, b: nat, o: nat, p: Payload) {
    Present(m, b, o, p) || Missing(m, b, o)
  }

  lemma AckedIsHeld(g: Config, x: Seg, o: nat)
    requires SegOk(g, x) && o in x.sys.acked
    ensures o < |x.sys.ps| && Holds(x, x.base, o, x.sys.ps[o])
  {
  }

  // ---------- every step keeps the promise ----------

  lemma HoldsLonger(x: Seg, x': Seg, b: nat, o: nat, p: Payload)
    requires Holds(x, b, o, p) && x'.base == x.base && x.sys.acked <= x'.sys.acked
    requires x.sys.ps <= x'.sys.ps && Count(x) <= Count(x')
    ensures Holds(x', b, o, p)
  {
  }

  lemma AppendKeepsPresent(g: Config, m: Mgr, data: seq<byte>, now: Time, x: Seg, b: nat, o: nat, p: Payload)
    requires FixedWidth(g.c) && 1 <= g.maxBytes && FilesOk(g, m) && IsFile(m, x) && Holds(x, b, o, p)
    ensures Present(Next(g, m, AppendReserve(data, now)), b, o, p)
  {
    var m' := Next(g, m, AppendReserve(data, now));
    if x in m.live {
      var mid := m.(live := Rolled(g, m.live, now));
      var a := Active(mid.live);
      RollKeepsFiles(g, m, now);
      var i :| 0 <= i < |m.live| && m.live[i] == x;
      assert mid.live[i] == x;
      assert IsFile(mid, a) && SegOk(g, a);
      ReserveInOk(g, a, data, now);
      if i == |mid.live| - 1 {
        HoldsLonger(x, m'.live[i], b, o, p);
      }
      assert IsFile(m', m'.live[i]) && Holds(m'.live[i], b, o, p);
    } else {
      assert IsFile(m', x);
    }
  }

  lemma AppendKeepsMissing(g: Config, m: Mgr, data: seq<byte>, now: Time, b: nat, o: nat)
    requires FixedWidth(g.c) && 1 <= g.maxBytes && FilesOk(g, m) && Missing(m, b, o)
    ensures Missing(Next(g, m, AppendReserve(data, now)), b, o)
  {
    var m', mid := Next(g, m, AppendReserve(data, now)), m.(live := Rolled(g, m.live, now));
    var a := Active(mid.live);
    RollKeepsFiles(g, m, now);
    assert IsFile(mid, a) && SegOk(g, a);
    ReserveInOk(g, a, data, now);
    assert a.base >= Active(m.live).base;
    forall x | IsFile(m', x) ensures Clear(x, b, o) {
      if x in m'.live {
        var i :| 0 <= i < |m'.live| && m'.live[i] == x;
        if i < |mid.live| - 1 {
          assert m.live[i] == x && IsFile(m, x);
        }
      } else {
        assert IsFile(m, x);
      }
    }
  }

  lemma ReplaceKeepsPromise(m: Mgr, m': Mgr, x: Seg, x': Seg, b: nat, o: nat, p: Payload)
    requires Promised(m, b, o, p) && Replaces(m, m', x, x') && x'.sys.ps == x.sys.ps && x.sys.acked <= x'.sys.acked
    requires m.live != [] && m'.live != [] && m'.dropped == m.dropped && Active(m'.live).base == Active(m.live).base
    ensures Promised(m', b, o, p)
  {
    if Present(m, b, o, p) {
      var y :| IsFile(m, y) && Holds(y, b, o, p);
      var y' := if y == x then x' else y;
      HoldsLonger(y, y', b, o, p);
      assert IsFile(m', y');
    } else {
      forall y | IsFile(m', y) ensures Clear(y, b, o) {
        assert Clear(x, b, o);
        assert y == x' || IsFile(m, y);
      }
    }
  }

  lemma LiveCommitKeepsPromise(g: Config, m: Mgr, i: nat, e: WalSystem.Event, b: nat, o: nat, p: Payload)
    requires FixedWidth(g.c) && FilesOk(g, m) && Enabled(m, LiveCommit(i, e)) && Promised(m, b, o, p)
    ensures Promised(m.(live := m.live[i := Stepped(g, m.live[i], e)]), b, o, p)
  {
    var x, x' := m.live[i], Stepped(g, m.live[i], e);
    assert IsFile(m, x) && SegOk(g, x);
    SteppedOk(g, x, e);
    LiveReplaces(g, m, i, x');
    ReplaceKeepsPromise(m, m.(live := m.live[i := x']), x, x', b, o, p);
  }

  lemma GoneCommitKeepsPromise(g: Config, m: Mgr, x: Seg, e: WalSystem.Event, b: nat, o: nat, p: Payload)
    requires FixedWidth(g.c) && FilesOk(g, m) && Enabled(m, GoneCommit(x, e)) && Promised(m, b, o, p)
    ensures Promised(m.(gone := m.gone - {x} + {Stepped(g, x, e)}), b, o, p)
  {
    var x' := Stepped(g, x, e);
    assert IsFile(m, x) && SegOk(g, x);
    SteppedOk(g, x, e);
    GoneReplaces(g, m, x, x');
    ReplaceKeepsPromise(m, m.(gone := m.gone - {x} + {x'}), x, x', b, o, p);
  }

  /** A step that only moves files around. */
  lemma SameFilesKeepPromise(m: Mgr, m': Mgr, b: nat, o: nat, p: Payload)
    requires Promised(m, b, o, p) && m.dropped <= m'.dropped
    requires m.live != [] && m'.live != [] && Active(m'.live).base == Active(m.live).base
    requires forall x :: IsFile(m', x) <==> IsFile(m, x)
    ensures Promised(m', b, o, p)
  {
    if Present(m, b, o, p) {
      var y :| IsFile(m, y) && Holds(y, b, o, p);
      assert IsFile(m', y);
    }
  }

  lemma DetachKeepsPromise(g: Config, m: Mgr, now: Time, b: nat, o: nat, p: Payload)
    requires m.live != [] && Promised(m, b, o, p)
    ensures Promised(Detached(g, m, now), b, o, p)
  {
    forall x ensures IsFile(Detached(g, m, now), x) <==> IsFile(m, x) {
      DetachSameFiles(g, m, now, x);
    }
    SameFilesKeepPromise(m, Detached(g, m, now), b, o, p);
  }

  // ---------- crashes ----------

  /** The active segment survives every crash, so the head never falls below its base. */
  lemma CrashKeepsHead(g: Config, m: Mgr, survivors: seq<Seg>, losses: seq<Loss>)
    requires FixedWidth(g.c) && FilesOk(g, m) && CrashLeaves(m, survivors, losses)
    ensures survivors != [] && Active(m.live).base <= Active(Reopened(g, m, survivors, losses).live).base
  {
    assert Active(m.live) in survivors;
    LastIsHighest(survivors, Active(m.live));
    CrashKeepsSegment(g, m, survivors, losses, |survivors| - 1);
  }

  lemma LastIsHighest(xs: seq<Seg>, x: Seg)
    requires Ordered(xs) && x in xs
    ensures x.base <= Active(xs).base
  {
  }

  lemma CrashKeepsHolder(g: Config, m: Mgr, survivors: seq<Seg>, losses: seq<Loss>, i: nat, b: nat, o: nat, p: Payload)
    requires FixedWidth(g.c) && FilesOk(g, m) && CrashLeaves(m, survivors, losses) && i < |survivors|
    requires Holds(survivors[i], b, o, p)
    ensures Present(Reopened(g, m, survivors, losses), b, o, p)
  {
    var m' := Reopened(g, m, survivors, losses);
    var x' := m'.live[i];
    CrashKeepsSegment(g, m, survivors, losses, i);
    AckedIsHeld(g, x', o);
    assert x' in m'.live;
    assert IsFile(m', x') && Holds(x', b, o, p);
  }

  lemma CrashKeepsClear(g: Config, m: Mgr, survivors: seq<Seg>, losses: seq<Loss>, b: nat, o: nat)
    requires FixedWidth(g.c) && FilesOk(g, m) && CrashLeaves(m, survivors, losses)
    requires b in m.dropped && b + o < Active(m.live).base
    requires forall x <- survivors :: Clear(x, b, o)
    ensures Missing(Reopened(g, m, survivors, losses), b, o)
  {
    var m' := Reopened(g, m, survivors, losses);
    CrashKeepsHead(g, m, survivors, losses);
    forall x | IsFile(m', x) ensures Clear(x, b, o) {
      var i :| 0 <= i < |m'.live| && m'.live[i] == x;
      CrashKeepsSegment(g, m, survivors, losses, i);
      assert survivors[i] in survivors && Clear(survivors[i], b, o);
    }
  }

  /** A file that a crash does not leave was detached, and lies apart from every file that is left. */
  lemma LostIsDropped(g: Config, m: Mgr, survivors: seq<Seg>, losses: seq<Loss>, x: Seg, o: nat)
    requires FilesOk(g, m) && CrashLeaves(m, survivors, losses) && IsFile(m, x) && x !in survivors && o < Count(x)
    ensures x.base in m.dropped && x.base + o < Active(m.live).base
    ensures forall y <- survivors :: Clear(y, x.base, o)
  {
    assert x in m.gone;
    ActiveIsLast(g, m, x);
    forall y <- survivors ensures Clear(y, x.base, o) {
      assert IsFile(m, y) && Apart(x, y) && Apart(y, x);
    }
  }

  lemma CrashKeepsPromise(g: Config, m: Mgr, survivors: seq<Seg>, losses: seq<Loss>, b: nat, o: nat, p: Payload)
    requires FixedWidth(g.c) && FilesOk(g, m) && CrashLeaves(m, survivors, losses) && Promised(m, b, o, p)
    ensures Promised(Reopened(g, m, survivors, losses), b, o, p)
  {
    if Present(m, b, o, p) {
      var x :| IsFile(m, x) && Holds(x, b, o, p);
      if x in survivors {
        var i :| 0 <= i < |survivors| && survivors[i] == x;
        CrashKeepsHolder(g, m, survivors, losses, i, b, o, p);
      } else {
        LostIsDropped(g, m, survivors, losses, x, o);
        CrashKeepsClear(g, m, survivors, losses, b, o);
      }
    } else {
      forall x <- survivors ensures Clear(x, b, o) {
        assert IsFile(m, x);
      }
      CrashKeepsClear(g, m, survivors, losses, b, o);
    }
  }

  lemma NextKeepsPromise(g: Config, m: Mgr, e: Event, b: nat, o: nat, p: Payload)
    requires FixedWidth(g.c) && 1 <= g.maxBytes && FilesOk(g, m) && Enabled(m, e) && Promised(m, b, o, p)
    ensures Promised(Next(g, m, e), b, o, p)
  {
    match e
    case AppendReserve(data, now) =>
      if Present(m, b, o, p) {
        var x :| IsFile(m, x) && Holds(x, b, o, p);
        AppendKeepsPresent(g, m, data, now, x, b, o, p);
      } else {
        AppendKeepsMissing(g, m, data, now, b, o);
      }
    case LiveCommit(i, e') => LiveCommitKeepsPromise(g, m, i, e', b, o, p);
    case GoneCommit(x, e') => GoneCommitKeepsPromise(g, m, x, e', b, o, p);
    case StartRead(r, offset) => SameFilesKeepPromise(m, Next(g, m, e), b, o, p);
    case FinishRead(r) => SameFilesKeepPromise(m, Next(g, m, e), b, o, p);
    case Detach(now) => DetachKeepsPromise(g, m, now, b, o, p);
    case CloseVictim(x) => SameFilesKeepPromise(m, Next(g, m, e), b, o, p);
    case Crash(survivors, losses) => CrashKeepsPromise(g, m, survivors, losses, b, o, p);
  }

  // ---------- over whole runs ----------

  lemma {:induction false} RunKeepsPromise(g: Config, states: seq<Mgr>, events: seq<Event>, j: nat, k: nat,
                                           b: nat, o: nat, p: Payload)
    requires IsRun(g, states, events) && j <= k < |states| && Promised(states[j], b, o, p)
    ensures Promised(states[k], b, o, p)
    decreases k
  {
    if j < k {
      RunKeepsPromise(g, states, events, j, k - 1, b, o, p);
      StepKeepsPromise(g, states, events, k - 1, b, o, p);
    }
  }

  lemma StepKeepsPromise(g: Config, states: seq<Mgr>, events: seq<Event>, k: nat, b: nat, o: nat, p: Payload)
    requires IsRun(g, states, events) && k < |events| && Promised(states[k], b, o, p)
    ensures Promised(states[k + 1], b, o, p)
  {
    RunHasCore(g, states, events, k);
    RunStep(g, states, events, k);
    NextKeepsPromise(g, states[k], events[k], b, o, p);
  }

  lemma PromisedRead(g: Config, m: Mgr, b: nat, o: nat, p: Payload)
    requires FixedWidth(g.c) && FilesOk(g, m) && Promised(m, b, o, p)
    ensures var r := ManagerRead(g, m.live, b + o);
            r == Answer(Data(p)) || (b in m.dropped && (r == OutOfRetention(b + o, m.live[0].base) || r == Answer(Eof)))
  {
    if Present(m, b, o, p) {
      var x :| IsFile(m, x) && Holds(x, b, o, p);
      if x in m.live {
        LiveReadIsLookup(g, m, x, b + o);
      } else {
        assert IsFile(m, m.live[0]) && Apart(x, m.live[0]);
        BelowFirst(m.live, b + o);
      }
    } else {
      forall x <- m.live ensures !Contains(x, b + o) {
        assert IsFile(m, x) && Clear(x, b, o);
      }
      UnownedRead(g, m.live, b + o);
    }
  }

  lemma PromisedHead(g: Config, m: Mgr, b: nat, o: nat, p: Payload, data: seq<byte>, now: Time)
    requires FilesOk(g, m) && Promised(m, b, o, p)
    ensures b + o < End(Active(m.live))
    ensures var a := AssignedOffset(g, m.live, data, now); a.Some? ==> b + o < a.value
  {
    var head := Active(m.live);
    assert IsFile(m, head) && SegOk(g, head);
    if Present(m, b, o, p) {
      var x :| IsFile(m, x) && Holds(x, b, o, p);
      ActiveIsLast(g, m, x);
    }
  }

  lemma AckedIsPromised(g: Config, m: Mgr, x: Seg, o: nat)
    requires FilesOk(g, m) && IsFile(m, x) && o in x.sys.acked
    ensures o < |x.sys.ps| && Promised(m, x.base, o, x.sys.ps[o])
  {
    assert SegOk(g, x);
    AckedIsHeld(g, x, o);
    assert Present(m, x.base, o, x.sys.ps[o]);
  }

  /** After any number of crashes, a record that was acknowledged is read back with its payload at its global
      offset, unless retention has detached its segment; then the read may be refused or find nothing, but never
      returns another record. Every offset assigned from then on is larger. */
  lemma AcknowledgedStays(g: Config, states: seq<Mgr>, events: seq<Event>, j: nat, k: nat, x: Seg, o: nat,
                          data: seq<byte>, now: Time)
    requires IsRun(g, states, events) && j <= k < |states| && IsFile(states[j], x) && o in x.sys.acked
    ensures o < |x.sys.ps| && states[k].live != []
    ensures var m, r := states[k], ManagerRead(g, states[k].live, x.base + o);
            || r == Answer(Data(x.sys.ps[o]))
            || (x.base in m.dropped && (r == OutOfRetention(x.base + o, m.live[0].base) || r == Answer(Eof)))
    ensures var a := AssignedOffset(g, states[k].live, data, now); a.Some? ==> x.base + o < a.value
  {
    RunHasCore(g, states, events, j);
    RunHasCore(g, states, events, k);
    AckedIsPromised(g, states[j], x, o);
    RunKeepsPromise(g, states, events, j, k, x.base, o, x.sys.ps[o]);
    PromisedRead(g, states[k], x.base, o, x.sys.ps[o]);
    PromisedHead(g, states[k], x.base, o, x.sys.ps[o], data, now);
  }
}
