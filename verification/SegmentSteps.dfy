/** Every step of the segmented log keeps its files in order and its readers served. */
module SegmentSteps {
  import opened Bytes
  import opened WalFormat
  import opened WalLog
  import opened Segments
  import opened SegmentInvariant
  import WalSteps
  import WalSystem

  // ---------- one segment ----------

  lemma NewSegmentOk(g: Config, base: nat, now: Time)
    ensures SegOk(g, NewSegment(base, now))
  {
    assert WalSystem.StoreOk(g.c, [], [], 0, 0);
    assert WalSystem.WalInv(g.c, WalSystem.EMPTY.w, []);
  }

  lemma ReserveInOk(g: Config, x: Seg, data: seq<byte>, now: Time)
    requires FixedWidth(g.c) && SegOk(g, x)
    ensures var x' := ReserveIn(g, x, data, now);
            && SegOk(g, x') && x'.base == x.base
            && (if Reserve(g.c, x.sys.w, data).1.Reserved?
                then |data| <= MAX_RECORD && x'.sys.ps == x.sys.ps + [data] && Count(x') == Count(x) + 1
                     && x'.sys.acked == x.sys.acked && x'.times == x.times + [now] && x'.lastAppend == now
                else x' == x)
  {
    WalSteps.NextKeepsInv(Inner(g), x.sys, WalSystem.DoReserve(data));
  }

  lemma SteppedOk(g: Config, x: Seg, e: WalSystem.Event)
    requires FixedWidth(g.c) && SegOk(g, x) && CommitStep(x, e)
    ensures var x' := Stepped(g, x, e);
            && SegOk(g, x') && x'.base == x.base && x'.sys.ps == x.sys.ps && Count(x') == Count(x)
            && x.sys.acked <= x'.sys.acked && x'.times == x.times && x'.lastAppend == x.lastAppend
  {
    WalSteps.NextKeepsInv(Inner(g), x.sys, e);
  }

  lemma RecoveredOk(g: Config, x: Seg, l: Loss)
    requires FixedWidth(g.c) && SegOk(g, x) && WalSystem.Enabled(x.sys, LossEvent(l))
    ensures var x' := Recovered(g, x, l);
            && SegOk(g, x') && x'.base == x.base && x'.sys.ps <= x.sys.ps && Count(x') <= Count(x)
            && x.sys.acked <= x'.sys.acked
  {
    WalSteps.NextKeepsInv(Inner(g), x.sys, LossEvent(l));
    var n := WalSteps.OpenRecovers(g.c, x.sys.w, x.sys.ps, l.length, l.durable, l.index);
  }

  /** A segment that has reached the size to roll holds at least one record. */
  lemma FullIsNotEmpty(g: Config, x: Seg)
    requires SegOk(g, x) && 1 <= g.maxBytes <= x.sys.w.size
    ensures 0 < Count(x)
  {
  }

  // ---------- Append ----------

  lemma OrderedGrows(live: seq<Seg>, x: Seg)
    requires live != [] && Ordered(live) && Active(live).base < x.base
    ensures Ordered(live + [x])
  {
    var all := live + [x];
    forall i, j | 0 <= i < j < |all| ensures all[i].base < all[j].base {
      if j == |live| && i < |live| - 1 {
        assert live[i].base < live[|live| - 1].base;
      }
    }
  }

  lemma OrderedReplace(live: seq<Seg>, i: nat, x: Seg)
    requires i < |live| && Ordered(live) && x.base == live[i].base
    ensures Ordered(live[i := x])
  {
  }

  /** Every file lies at or below the active segment's base, and all but the active end there. */
  lemma ActiveIsLast(g: Config, m: Mgr, x: Seg)
    requires FilesOk(g, m) && IsFile(m, x)
    ensures x.base <= Active(m.live).base
    ensures x != Active(m.live) ==> x.base < Active(m.live).base && End(x) <= Active(m.live).base
  {
    var a := Active(m.live);
    assert m.live[0].base <= a.base;
    if x in m.live {
      var i :| 0 <= i < |m.live| && m.live[i] == x;
    }
    assert IsFile(m, a) && Apart(x, a);
  }

  lemma RollKeepsFiles(g: Config, m: Mgr, now: Time)
    requires 1 <= g.maxBytes && FilesOk(g, m)
    ensures FilesOk(g, m.(live := Rolled(g, m.live, now)))
    ensures m.live <= Rolled(g, m.live, now)
  {
    if Active(m.live).sys.w.size >= g.maxBytes {
      FullActive(g, m);
      AddKeepsEmpty(g, m, now);
    } else {
      assert m.(live := Rolled(g, m.live, now)) == m;
    }
  }

  lemma FullActive(g: Config, m: Mgr)
    requires FilesOk(g, m) && 1 <= g.maxBytes <= Active(m.live).sys.w.size
    ensures 0 < Count(Active(m.live))
  {
    ActiveOk(g, m);
    FullIsNotEmpty(g, Active(m.live));
  }

  lemma AddKeepsEmpty(g: Config, m: Mgr, now: Time)
    requires FilesOk(g, m) && 0 < Count(Active(m.live))
    ensures FilesOk(g, m.(live := m.live + [NewSegment(End(Active(m.live)), now)]))
  {
    NewSegmentOk(g, End(Active(m.live)), now);
    AddKeepsFiles(g, m, NewSegment(End(Active(m.live)), now));
  }

  lemma AddKeepsFiles(g: Config, m: Mgr, n: Seg)
    requires FilesOk(g, m) && SegOk(g, n) && n.base == End(Active(m.live)) && 0 < Count(Active(m.live))
    ensures FilesOk(g, m.(live := m.live + [n]))
  {
    var m' := m.(live := m.live + [n]);
    OrderedGrows(m.live, n);
    forall x, y | IsFile(m', x) && IsFile(m', y) ensures Apart(x, y) {
      RolledApart(g, m, n, x, y);
    }
    forall x | IsFile(m', x) ensures SegOk(g, x) {
      assert x == n || IsFile(m, x);
    }
  }

  lemma RolledApart(g: Config, m: Mgr, n: Seg, x: Seg, y: Seg)
    requires FilesOk(g, m) && n.base == End(Active(m.live)) && 0 < Count(Active(m.live))
    requires x == n || IsFile(m, x)
    requires y == n || IsFile(m, y)
    ensures Apart(x, y)
  {
    if x != n {
      ActiveIsLast(g, m, x);
    }
    if y != n {
      ActiveIsLast(g, m, y);
    }
    if x != n && y != n {
      assert IsFile(m, x) && IsFile(m, y);
    }
  }

  /** The active segment may grow. */
  lemma GrowKeepsFiles(g: Config, m: Mgr, x': Seg)
    requires FilesOk(g, m) && SegOk(g, x') && x'.base == Active(m.live).base
    ensures FilesOk(g, m.(live := m.live[|m.live| - 1 := x']))
  {
    var i := |m.live| - 1;
    var m' := m.(live := m.live[i := x']);
    OrderedReplace(m.live, i, x');
    forall x | IsFile(m', x) ensures SegOk(g, x) && (x == x' || (IsFile(m, x) && x != Active(m.live))) {
      GrownOrigin(g, m, x', x);
    }
    forall x, y | IsFile(m', x) && IsFile(m', y) ensures Apart(x, y) {
      GrownOrigin(g, m, x', x);
      GrownOrigin(g, m, x', y);
      if x != x' {
        ActiveIsLast(g, m, x);
      }
      if y != x' {
        ActiveIsLast(g, m, y);
      }
    }
  }

  lemma GrownOrigin(g: Config, m: Mgr, x': Seg, x: Seg)
    requires FilesOk(g, m) && SegOk(g, x') && x'.base == Active(m.live).base
    requires IsFile(m.(live := m.live[|m.live| - 1 := x']), x)
    ensures SegOk(g, x) && (x == x' || (IsFile(m, x) && x != Active(m.live)))
  {
    var i := |m.live| - 1;
    var live' := m.live[i := x'];
    if x in live' {
      var k :| 0 <= k < |live'| && live'[k] == x;
      if k < i {
        assert m.live[k].base < m.live[i].base;
        assert IsFile(m, x);
      }
    } else {
      assert m.live[0].base <= m.live[i].base;
      assert IsFile(m, x);
    }
  }

  lemma AppendKeepsFiles(g: Config, m: Mgr, data: seq<byte>, now: Time)
    requires FixedWidth(g.c) && 1 <= g.maxBytes && FilesOk(g, m)
    ensures FilesOk(g, m.(live := AppendedTo(g, m.live, data, now)))
  {
    var mid := m.(live := Rolled(g, m.live, now));
    RollKeepsFiles(g, m, now);
    ActiveOk(g, mid);
    var x' := ReserveIn(g, Active(mid.live), data, now);
    ReserveInOk(g, Active(mid.live), data, now);
    GrowKeepsFiles(g, mid, x');
    assert mid.(live := mid.live[|mid.live| - 1 := x']) == m.(live := AppendedTo(g, m.live, data, now));
  }

  lemma ActiveOk(g: Config, m: Mgr)
    requires FilesOk(g, m)
    ensures SegOk(g, Active(m.live))
  {
    assert IsFile(m, Active(m.live));
  }

  /** Every segment is still there after an append, with at least its records. */
  lemma AppendKeepsSegment(g: Config, m: Mgr, data: seq<byte>, now: Time, x: Seg) returns (x': Seg)
    requires FixedWidth(g.c) && 1 <= g.maxBytes && FilesOk(g, m) && IsFile(m, x)
    ensures IsFile(m.(live := AppendedTo(g, m.live, data, now)), x')
    ensures x'.base == x.base && Count(x) <= Count(x')
  {
    x' := x;
    if x in m.live {
      var i :| 0 <= i < |m.live| && m.live[i] == x;
      var mid, live' := m.(live := Rolled(g, m.live, now)), AppendedTo(g, m.live, data, now);
      RollKeepsFiles(g, m, now);
      assert IsFile(mid, Active(mid.live)) && SegOk(g, Active(mid.live));
      ReserveInOk(g, Active(mid.live), data, now);
      x' := live'[i];
      assert x' in live';
    }
  }

  // ---------- readers, in general ----------

  /** What was served before is served after a step that keeps every open segment, if perhaps longer. */
  lemma ReadersStayServed(m: Mgr, m': Mgr)
    requires ReadersOk(m) && m'.readers == m.readers && m'.refs == m.refs
    requires forall r <- m.readers :: ReaderOk(m, m.readers[r]) ==> ReaderOk(m', m.readers[r])
    ensures ReadersOk(m')
  {
    forall b: nat ensures Refs(m', b) == |ReadersOf(m'.readers, b)| {
      assert Refs(m, b) == |ReadersOf(m.readers, b)|;
    }
  }

  lemma ServedAgain(m: Mgr, rd: Reading, x: Seg, x': Seg)
    requires IsFile(m, x') && x'.base !in m.closed && Serves(x, rd)
    requires x'.base == x.base && Count(x) <= Count(x')
    ensures ReaderOk(m, rd)
  {
    assert Serves(x', rd);
  }

  lemma AppendKeeps(g: Config, m: Mgr, data: seq<byte>, now: Time)
    requires FixedWidth(g.c) && 1 <= g.maxBytes && Core(g, m) && Enabled(m, AppendReserve(data, now))
    ensures Core(g, Next(g, m, AppendReserve(data, now)))
  {
    var m' := Next(g, m, AppendReserve(data, now));
    var mid := m.(live := AppendedTo(g, m.live, data, now));
    AppendKeepsFiles(g, m, data, now);
    SameFiles(g, mid, m');
    forall r <- m.readers ensures ReaderOk(m', m.readers[r]) {
      var rd := m.readers[r];
      assert ReaderOk(m, rd);
      var x :| IsFile(m, x) && x.base !in m.closed && Serves(x, rd);
      var x' := AppendKeepsSegment(g, m, data, now, x);
      assert IsFile(m', x');
      ServedAgain(m', rd, x, x');
    }
    ReadersStayServed(m, m');
  }

  lemma SameFiles(g: Config, m: Mgr, m': Mgr)
    requires FilesOk(g, m)
    requires m'.live == m.live && m'.gone == m.gone && m'.closed == m.closed && m'.dropped == m.dropped
    ensures FilesOk(g, m')
  {
    forall x | IsFile(m', x) ensures SegOk(g, x) {
      assert IsFile(m, x);
    }
    forall x, y | IsFile(m', x) && IsFile(m', y) ensures Apart(x, y) {
      assert IsFile(m, x) && IsFile(m, y);
    }
  }

  // ---------- commits ----------

  /** `x` became `x'`, with the same base and number of records; every other file is as before. */
  ghost predicate Replaces(m: Mgr, m': Mgr, x: Seg, x': Seg) {
    && IsFile(m, x) && IsFile(m', x') && x'.base == x.base && Count(x') == Count(x)
    && (forall y :: IsFile(m', y) ==> y == x' || (IsFile(m, y) && y != x))
    && (forall y :: IsFile(m, y) && y != x ==> IsFile(m', y))
  }

  lemma ReplaceKeepsFiles(g: Config, m: Mgr, m': Mgr, x: Seg, x': Seg)
    requires FilesOk(g, m) && Replaces(m, m', x, x') && SegOk(g, x') && InOrder(m')
    ensures FilesOk(g, m')
  {
    forall y | IsFile(m', y) ensures SegOk(g, y) {
      assert y == x' || IsFile(m, y);
    }
    forall y, z | IsFile(m', y) && IsFile(m', z) ensures Apart(y, z) {
      var y0, z0 := if y == x' then x else y, if z == x' then x else z;
      assert IsFile(m, y0) && IsFile(m, z0) && Apart(y0, z0);
    }
  }

  lemma ReplaceKeepsReaders(m: Mgr, m': Mgr, x: Seg, x': Seg)
    requires ReadersOk(m) && Replaces(m, m', x, x')
    requires m'.readers == m.readers && m'.refs == m.refs && m'.closed == m.closed
    ensures ReadersOk(m')
  {
    forall r <- m.readers ensures ReaderOk(m', m.readers[r]) {
      var rd := m.readers[r];
      assert ReaderOk(m, rd);
      var y :| IsFile(m, y) && y.base !in m.closed && Serves(y, rd);
      ServedAgain(m', rd, y, if y == x then x' else y);
    }
    ReadersStayServed(m, m');
  }

  lemma LiveReplaces(g: Config, m: Mgr, i: nat, x': Seg)
    requires FilesOk(g, m) && i < |m.live| && x'.base == m.live[i].base && Count(x') == Count(m.live[i])
    ensures Replaces(m, m.(live := m.live[i := x']), m.live[i], x')
  {
    var m', x := m.(live := m.live[i := x']), m.live[i];
    assert IsFile(m, x) && x' == m'.live[i] && IsFile(m', x');
    forall y | IsFile(m', y) ensures y == x' || (IsFile(m, y) && y != x) {
      if y in m'.live {
        var k :| 0 <= k < |m'.live| && m'.live[k] == y;
        assert k != i ==> m.live[k] == y && m.live[k].base != m.live[i].base;
      } else {
        assert m.live[0].base <= m.live[i].base;
      }
    }
    forall y | IsFile(m, y) && y != x ensures IsFile(m', y) {
      if y in m.live {
        var k :| 0 <= k < |m.live| && m.live[k] == y;
        assert m'.live[k] == y;
      }
    }
  }

  lemma LiveCommitKeeps(g: Config, m: Mgr, i: nat, e: WalSystem.Event)
    requires FixedWidth(g.c) && Core(g, m) && Enabled(m, LiveCommit(i, e))
    ensures Core(g, Next(g, m, LiveCommit(i, e)))
  {
    var m', x := Next(g, m, LiveCommit(i, e)), m.live[i];
    assert IsFile(m, x) && SegOk(g, x);
    SteppedOk(g, x, e);
    LiveReplaces(g, m, i, Stepped(g, x, e));
    OrderedReplace(m.live, i, Stepped(g, x, e));
    ReplaceKeepsFiles(g, m, m', x, Stepped(g, x, e));
    ReplaceKeepsReaders(m, m', x, Stepped(g, x, e));
  }

  lemma GoneReplaces(g: Config, m: Mgr, x: Seg, x': Seg)
    requires FilesOk(g, m) && x in m.gone && x'.base == x.base && Count(x') == Count(x)
    ensures Replaces(m, m.(gone := m.gone - {x} + {x'}), x, x')
  {
    var m' := m.(gone := m.gone - {x} + {x'});
    forall y | IsFile(m', y) ensures y == x' || (IsFile(m, y) && y != x) {
      if y in m.live {
        var k :| 0 <= k < |m.live| && m.live[k] == y;
        assert m.live[0].base <= y.base;
      }
    }
  }

  lemma GoneCommitKeeps(g: Config, m: Mgr, x: Seg, e: WalSystem.Event)
    requires FixedWidth(g.c) && Core(g, m) && Enabled(m, GoneCommit(x, e))
    ensures Core(g, Next(g, m, GoneCommit(x, e)))
  {
    var m' := Next(g, m, GoneCommit(x, e));
    assert IsFile(m, x) && SegOk(g, x);
    SteppedOk(g, x, e);
    GoneReplaces(g, m, x, Stepped(g, x, e));
    ReplaceKeepsFiles(g, m, m', x, Stepped(g, x, e));
    ReplaceKeepsReaders(m, m', x, Stepped(g, x, e));
  }

  // ---------- readers come and go ----------

  lemma StartReadKeeps(g: Config, m: Mgr, r: ReaderId, offset: nat)
    requires Core(g, m) && Enabled(m, StartRead(r, offset))
    ensures Core(g, Next(g, m, StartRead(r, offset)))
  {
    var m' := Next(g, m, StartRead(r, offset));
    SameFiles(g, m, m');
    if Route(m.live, offset).Owner? {
      RoutedReadersOk(m, r, offset);
    } else {
      assert m' == m;
    }
  }

  lemma RoutedRefs(m: Mgr, r: ReaderId, offset: nat, b: nat)
    requires ReadersOk(m) && m.live != [] && r !in m.readers && Route(m.live, offset).Owner?
    ensures Refs(Routed(m, r, offset), b) == |ReadersOf(Routed(m, r, offset).readers, b)|
  {
    assert Refs(m, b) == |ReadersOf(m.readers, b)|;
    OneMoreReader(m.readers, r, Reading(m.live[Route(m.live, offset).index].base, offset), b);
  }

  lemma OneMoreReader(readers: map<ReaderId, Reading>, r: ReaderId, rd: Reading, b: nat)
    requires r !in readers
    ensures |ReadersOf(readers[r := rd], b)| == |ReadersOf(readers, b)| + if b == rd.base then 1 else 0
  {
    if b == rd.base {
      assert ReadersOf(readers[r := rd], b) == ReadersOf(readers, b) + {r};
    } else {
      assert ReadersOf(readers[r := rd], b) == ReadersOf(readers, b);
    }
  }

  lemma RoutedReadersOk(m: Mgr, r: ReaderId, offset: nat)
    requires InOrder(m) && ReadersOk(m) && r !in m.readers && Route(m.live, offset).Owner?
    ensures ReadersOk(Routed(m, r, offset))
  {
    var m', x := Routed(m, r, offset), m.live[Route(m.live, offset).index];
    forall b: nat ensures Refs(m', b) == |ReadersOf(m'.readers, b)| {
      RoutedRefs(m, r, offset, b);
    }
    forall q <- m'.readers ensures ReaderOk(m', m'.readers[q]) {
      if q == r {
        assert m.live[0].base <= x.base;
        assert IsFile(m', x) && Serves(x, m'.readers[r]);
      } else {
        assert ReaderOk(m, m.readers[q]);
        var y :| IsFile(m, y) && y.base !in m.closed && Serves(y, m.readers[q]);
        assert IsFile(m', y);
      }
    }
  }

  lemma FinishReadKeeps(g: Config, m: Mgr, r: ReaderId)
    requires Core(g, m) && Enabled(m, FinishRead(r))
    ensures Core(g, Next(g, m, FinishRead(r)))
  {
    SameFiles(g, m, Released(m, r));
    ReleasedReadersOk(m, r);
  }

  lemma ReleasedReadersOk(m: Mgr, r: ReaderId)
    requires ReadersOk(m) && r in m.readers
    ensures ReadersOk(Released(m, r))
  {
    var m' := Released(m, r);
    forall b: nat ensures Refs(m', b) == |ReadersOf(m'.readers, b)| {
      assert Refs(m, b) == |ReadersOf(m.readers, b)|;
      if b == m.readers[r].base {
        assert r in ReadersOf(m.readers, b);
        assert ReadersOf(m'.readers, b) == ReadersOf(m.readers, b) - {r};
      } else {
        assert ReadersOf(m'.readers, b) == ReadersOf(m.readers, b);
      }
    }
    forall q <- m'.readers ensures ReaderOk(m', m'.readers[q]) {
      assert ReaderOk(m, m.readers[q]);
      var y :| IsFile(m, y) && y.base !in m.closed && Serves(y, m.readers[q]);
      assert IsFile(m', y);
    }
  }

  // ---------- retention ----------

  /** Detaching moves files from one list to the other. */
  lemma DetachSameFiles(g: Config, m: Mgr, now: Time, x: Seg)
    requires m.live != []
    ensures IsFile(Detached(g, m, now), x) <==> IsFile(m, x)
  {
    var v := Victims(g, m.live, now);
    assert m.live == m.live[..v] + m.live[v..];
  }

  lemma DetachInOrder(g: Config, m: Mgr, now: Time)
    requires InOrder(m)
    ensures InOrder(Detached(g, m, now))
  {
    var v, m' := Victims(g, m.live, now), Detached(g, m, now);
    assert m'.live[0] == m.live[v] && m.live[0].base <= m.live[v].base;
    forall x <- m'.gone ensures x.base < m'.live[0].base && x.base in m'.dropped {
      if x in m.live[..v] {
        var i :| 0 <= i < v && m.live[i] == x;
        assert x.base in Bases(m.live[..v]);
      }
    }
    forall i, j | 0 <= i < j < |m'.live| ensures m'.live[i].base < m'.live[j].base {
      assert m'.live[i] == m.live[v + i] && m'.live[j] == m.live[v + j];
    }
  }

  lemma DetachKeeps(g: Config, m: Mgr, now: Time)
    requires Core(g, m)
    ensures Core(g, Detached(g, m, now))
  {
    var m' := Detached(g, m, now);
    DetachInOrder(g, m, now);
    forall x ensures IsFile(m', x) <==> IsFile(m, x) {
      DetachSameFiles(g, m, now, x);
    }
    forall x | IsFile(m', x) ensures SegOk(g, x) {
      assert IsFile(m, x);
    }
    forall x, y | IsFile(m', x) && IsFile(m', y) ensures Apart(x, y) {
      assert IsFile(m, x) && IsFile(m, y);
    }
    forall r <- m.readers ensures ReaderOk(m', m.readers[r]) {
      assert ReaderOk(m, m.readers[r]);
      var y :| IsFile(m, y) && y.base !in m.closed && Serves(y, m.readers[r]);
      assert IsFile(m', y);
    }
    ReadersStayServed(m, m');
  }

  /** A segment is closed only when nobody reads it. */
  lemma CloseKeeps(g: Config, m: Mgr, x: Seg)
    requires Core(g, m) && Enabled(m, CloseVictim(x))
    ensures Core(g, Next(g, m, CloseVictim(x)))
  {
    var m' := Next(g, m, CloseVictim(x));
    SameFiles(g, m, m'.(closed := m.closed));
    forall y | IsFile(m', y) ensures SegOk(g, y) {
      assert IsFile(m, y);
    }
    forall y, z | IsFile(m', y) && IsFile(m', z) ensures Apart(y, z) {
      assert IsFile(m, y) && IsFile(m, z);
    }
    assert Refs(m, x.base) == |ReadersOf(m.readers, x.base)|;
    forall r <- m.readers ensures ReaderOk(m', m.readers[r]) {
      assert ReaderOk(m, m.readers[r]);
      assert r !in ReadersOf(m.readers, x.base);
      var y :| IsFile(m, y) && y.base !in m.closed && Serves(y, m.readers[r]);
      assert IsFile(m', y);
    }
    ReadersStayServed(m, m');
  }

  // ---------- crash ----------

  lemma CrashKeepsSegment(g: Config, m: Mgr, survivors: seq<Seg>, losses: seq<Loss>, i: nat)
    requires FixedWidth(g.c) && FilesOk(g, m) && CrashLeaves(m, survivors, losses) && i < |survivors|
    ensures var x, x' := survivors[i], Reopened(g, m, survivors, losses).live[i];
            && SegOk(g, x') && x'.base == x.base && Count(x') <= Count(x)
            && x'.sys.ps <= x.sys.ps && x.sys.acked <= x'.sys.acked && IsFile(m, x)
  {
    assert survivors[i] in survivors && IsFile(m, survivors[i]) && SegOk(g, survivors[i]);
    RecoveredOk(g, survivors[i], losses[i]);
  }

  lemma CrashKeepsOrder(g: Config, m: Mgr, survivors: seq<Seg>, losses: seq<Loss>)
    requires FixedWidth(g.c) && FilesOk(g, m) && CrashLeaves(m, survivors, losses)
    ensures InOrder(Reopened(g, m, survivors, losses))
  {
    var m' := Reopened(g, m, survivors, losses);
    assert m.live[0] in survivors;
    forall i, j | 0 <= i < j < |m'.live| ensures m'.live[i].base < m'.live[j].base {
      CrashKeepsSegment(g, m, survivors, losses, i);
      CrashKeepsSegment(g, m, survivors, losses, j);
    }
  }

  lemma CrashKeepsApart(g: Config, m: Mgr, survivors: seq<Seg>, losses: seq<Loss>, i: nat, j: nat)
    requires FixedWidth(g.c) && FilesOk(g, m) && CrashLeaves(m, survivors, losses)
    requires i < |survivors| && j < |survivors|
    ensures Apart(Reopened(g, m, survivors, losses).live[i], Reopened(g, m, survivors, losses).live[j])
  {
    var live' := Reopened(g, m, survivors, losses).live;
    if i != j {
      CrashKeepsSegment(g, m, survivors, losses, i);
      CrashKeepsSegment(g, m, survivors, losses, j);
      assert survivors[i].base != survivors[j].base;
      ShorterApart(survivors[i], survivors[j], live'[i], live'[j]);
    }
  }

  lemma ShorterApart(x: Seg, y: Seg, x': Seg, y': Seg)
    requires Apart(x, y) && x.base != y.base
    requires x'.base == x.base && y'.base == y.base && Count(x') <= Count(x)
    ensures Apart(x', y')
  {
  }

  lemma CrashKeeps(g: Config, m: Mgr, survivors: seq<Seg>, losses: seq<Loss>)
    requires FixedWidth(g.c) && Core(g, m) && CrashLeaves(m, survivors, losses)
    ensures Core(g, Reopened(g, m, survivors, losses))
  {
    var m' := Reopened(g, m, survivors, losses);
    CrashKeepsOrder(g, m, survivors, losses);
    forall x | IsFile(m', x) ensures SegOk(g, x) {
      var i :| 0 <= i < |m'.live| && m'.live[i] == x;
      CrashKeepsSegment(g, m, survivors, losses, i);
    }
    forall x, y | IsFile(m', x) && IsFile(m', y) ensures Apart(x, y) {
      var i :| 0 <= i < |m'.live| && m'.live[i] == x;
      var j :| 0 <= j < |m'.live| && m'.live[j] == y;
      CrashKeepsApart(g, m, survivors, losses, i, j);
    }
    NobodyReads(m');
  }

  lemma NobodyReads(m: Mgr)
    requires m.readers == map[] && m.refs == map[]
    ensures ReadersOk(m)
  {
    forall b: nat ensures Refs(m, b) == |ReadersOf(m.readers, b)| {
      assert ReadersOf(m.readers, b) == {};
    }
  }

  // ---------- all steps ----------

  lemma FreshOk(g: Config, now: Time)
    ensures Core(g, Fresh(now))
  {
    NewSegmentOk(g, 0, now);
    NobodyReads(Fresh(now));
  }

  lemma NextKeepsCore(g: Config, m: Mgr, e: Event)
    requires FixedWidth(g.c) && 1 <= g.maxBytes && Core(g, m) && Enabled(m, e)
    ensures Core(g, Next(g, m, e))
  {
    match e
    case AppendReserve(data, now) => AppendKeeps(g, m, data, now);
    case LiveCommit(i, e') => LiveCommitKeeps(g, m, i, e');
    case GoneCommit(x, e') => GoneCommitKeeps(g, m, x, e');
    case StartRead(r, offset) => StartReadKeeps(g, m, r, offset);
    case FinishRead(r) => FinishReadKeeps(g, m, r);
    case Detach(now) => DetachKeeps(g, m, now);
    case CloseVictim(x) => CloseKeeps(g, m, x);
    case Crash(survivors, losses) => CrashKeeps(g, m, survivors, losses);
  }

  lemma {:induction false} RunHasCore(g: Config, states: seq<Mgr>, events: seq<Event>, k: nat)
    requires IsRun(g, states, events) && k < |states|
    ensures Core(g, states[k])
  {
    if k == 0 {
      FreshOk(g, states[0].clock);
    } else {
      RunHasCore(g, states, events, k - 1);
      StepHasCore(g, states, events, k - 1);
    }
  }

  lemma StepHasCore(g: Config, states: seq<Mgr>, events: seq<Event>, k: nat)
    requires IsRun(g, states, events) && k < |events| && Core(g, states[k])
    ensures Core(g, states[k + 1])
  {
    RunStep(g, states, events, k);
    NextKeepsCore(g, states[k], events[k]);
  }
}
