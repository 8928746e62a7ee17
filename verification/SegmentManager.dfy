/** The segment manager and the consumer's cursor as objects over segment objects. Each method that takes the
    manager's lock simulates one step of the segmented log. */
module SegmentManager {
  import opened Options
  import opened Bytes
  import opened WalFormat
  import opened WalReading
  import opened WalLog
  import opened WalFiles
  import opened Segments
  import opened SegmentInvariant
  import opened SegmentSteps
  import opened SegmentReads
  import opened SegmentCursor
  import opened SegmentObjects
  import WalSystem
  import WalSteps

  /** Everything these segments own. */
  ghost function Objects(xs: seq<Segment>): set<object> {
    set s, o | s in xs && o in s.Repr() :: o
  }

  ghost predicate Disjoint(s: Segment, t: Segment) {
    s.Repr() !! t.Repr()
  }

  ghost predicate Separate(xs: seq<Segment>) {
    forall i, j {:trigger Disjoint(xs[i], xs[j])} :: 0 <= i < j < |xs| ==> Disjoint(xs[i], xs[j])
  }

  /** The object is a segment of a manager with these settings. */
  ghost predicate Fits(g: Config, s: Segment)
    reads s.Repr()
  {
    s.Valid() && s.writer.csum == g.c && s.writer.store.nthIndex == g.nth
  }

  /** The object holds the segment `x`, and counts this many readers. */
  ghost predicate Shows(g: Config, s: Segment, x: Seg, refs: nat)
    reads s.Repr()
  {
    Fits(g, s) && s.Value() == PlainOf(x) && s.readers == refs
  }

  lemma ReservedPlain(g: Config, x: Seg, data: seq<byte>, now: Time)
    ensures var (w, r) := WalLog.Reserve(g.c, x.sys.w, data);
            PlainOf(ReserveIn(g, x, data, now)) == Plain(x.base, w, if r.Reserved? then now else x.lastAppend)
  {
  }

  lemma RollHasNoReaders(g: Config, m: Mgr)
    requires 1 <= g.maxBytes && Core(g, m) && Active(m.live).sys.w.size >= g.maxBytes
    ensures Refs(m, End(Active(m.live))) == 0
  {
    var a, b := Active(m.live), End(Active(m.live));
    ActiveOk(g, m);
    FullIsNotEmpty(g, a);
    assert Refs(m, b) == |ReadersOf(m.readers, b)|;
    forall r <- m.readers ensures m.readers[r].base != b {
      assert ReaderOk(m, m.readers[r]);
      var y :| IsFile(m, y) && y.base !in m.closed && Serves(y, m.readers[r]);
      ActiveIsLast(g, m, y);
    }
    assert ReadersOf(m.readers, b) == {};
  }

  class Manager {
    const g: Config
    var segments: seq<Segment>

    ghost predicate Represents(m: Mgr)
      reads this, Objects(segments)
    {
      && |segments| == |m.live| && Separate(segments) && this !in Objects(segments)
      && forall i {:trigger Shown(m, i)} :: 0 <= i < |segments| ==> Shown(m, i)
    }

    /** The `i`-th object holds the `i`-th live segment of the state `m`, with its count of readers. */
    ghost predicate Shown(m: Mgr, i: nat)
      requires i < |segments| == |m.live|
      reads this, segments[i].Repr()
    {
      Shows(g, segments[i], m.live[i], Refs(m, m.live[i].base))
    }

    /** Open an empty directory. */
    constructor (g: Config, now: Time)
      ensures this.g == g && Represents(Fresh(now))
    {
      var s := new Segment(0, now, g.c, g.nth);
      this.g := g;
      segments := [s];
    }

    /** A manager of segments that are open already. */
    constructor Of(g: Config, segments: seq<Segment>, ghost m: Mgr)
      requires |segments| == |m.live| && Separate(segments)
      requires forall i :: 0 <= i < |segments| ==> Shows(g, segments[i], m.live[i], Refs(m, m.live[i].base))
      ensures this.g == g && this.segments == segments && Represents(m)
    {
      this.g, this.segments := g, segments;
    }

    /** Only the live segments and the counts of readers matter. */
    lemma SameSegments(m: Mgr, m': Mgr)
      requires Represents(m) && m'.live == m.live && m'.refs == m.refs
      ensures Represents(m')
    {
      forall i | 0 <= i < |segments| ensures Shown(m', i) {
        assert Shown(m, i);
      }
    }

    /** Seal the active segment and start one at the next global offset. */
    method Roll(ghost m: Mgr, now: Time)
      requires m.live != [] && Represents(m) && Refs(m, End(Active(m.live))) == 0
      modifies this
      ensures Represents(m.(live := m.live + [NewSegment(End(Active(m.live)), now)]))
      ensures |segments| == old(|segments|) + 1 && fresh(segments[|segments| - 1].Repr())
    {
      var last := segments[|segments| - 1];
      assert Shown(m, |segments| - 1);
      var s := new Segment(last.base + last.writer.nextOffset, now, g.c, g.nth);
      Attach(m, s, NewSegment(End(Active(m.live)), now));
    }

    /** Put a segment at the end of the list. */
    method Attach(ghost m: Mgr, s: Segment, ghost x: Seg)
      requires Represents(m) && Shows(g, s, x, Refs(m, x.base))
      requires this !in s.Repr() && s.Repr() !! Objects(segments)
      modifies this`segments
      ensures segments == old(segments) + [s] && Represents(m.(live := m.live + [x]))
    {
      ghost var before, m' := segments, m.(live := m.live + [x]);
      segments := segments + [s];
      forall i, j | 0 <= i < j < |segments| ensures Disjoint(segments[i], segments[j]) {
        assert segments[i] in before;
        if j < |before| {
          assert Disjoint(before[i], before[j]);
        }
      }
      forall i | 0 <= i < |segments| ensures Shown(m', i) {
        if i < |before| {
          assert segments[i] in before;
          assert old(Shown(m, i));
        }
      }
    }

    /** The first phase of Append, under the lock. */
    method Append(ghost m: Mgr, data: seq<byte>, now: Time) returns (o: Option<nat>)
      requires 1 <= g.maxBytes && Core(g, m) && Represents(m)
      modifies this, segments[|segments| - 1].Repr()
      ensures Represents(Next(g, m, AppendReserve(data, now)))
      ensures o == AssignedOffset(g, m.live, data, now)
    {
      if Active(m.live).sys.w.size >= g.maxBytes {
        RollHasNoReaders(g, m);
      }
      o := RollAndReserve(m, data, now);
      SameSegments(m.(live := AppendedTo(g, m.live, data, now)), Next(g, m, AppendReserve(data, now)));
    }

    method RollAndReserve(ghost m: Mgr, data: seq<byte>, now: Time) returns (o: Option<nat>)
      requires m.live != [] && Represents(m)
      requires Active(m.live).sys.w.size >= g.maxBytes ==> Refs(m, End(Active(m.live))) == 0
      modifies this, segments[|segments| - 1].Repr()
      ensures Represents(m.(live := AppendedTo(g, m.live, data, now)))
      ensures o == AssignedOffset(g, m.live, data, now)
    {
      RollIfFull(m, now);
      ghost var mid := m.(live := Rolled(g, m.live, now));
      o := ReserveActive(mid, data, now);
      assert mid.(live := mid.live[|mid.live| - 1 := ReserveIn(g, Active(mid.live), data, now)]) ==
             m.(live := AppendedTo(g, m.live, data, now));
    }

    method RollIfFull(ghost m: Mgr, now: Time)
      requires m.live != [] && Represents(m)
      requires Active(m.live).sys.w.size >= g.maxBytes ==> Refs(m, End(Active(m.live))) == 0
      modifies this
      ensures Represents(m.(live := Rolled(g, m.live, now)))
      ensures segments == old(segments) || fresh(segments[|segments| - 1].Repr())
    {
      var active := segments[|segments| - 1];
      assert Shown(m, |segments| - 1);
      if active.writer.size >= g.maxBytes {
        Roll(m, now);
      } else {
        assert m.(live := Rolled(g, m.live, now)) == m;
      }
    }

    /** Reserve in the active segment, whichever that is by now. */
    method ReserveActive(ghost m: Mgr, data: seq<byte>, now: Time) returns (o: Option<nat>)
      requires m.live != [] && Represents(m)
      modifies segments[|segments| - 1].Repr()
      ensures Represents(m.(live := m.live[|m.live| - 1 := ReserveIn(g, Active(m.live), data, now)]))
      ensures o == match WalLog.Reserve(g.c, Active(m.live).sys.w, data).1
                   case Reserved(local, _) => Some(Active(m.live).base + local)
                   case _ => None
    {
      var seg := segments[|segments| - 1];
      assert Shown(m, |segments| - 1);
      ReservedPlain(g, Active(m.live), data, now);
      var r := ReserveAs(m, ReserveIn(g, Active(m.live), data, now), data, now);
      o := match r case Reserved(local, _) => Some(seg.base + local) case _ => None;
    }

    /** Reserve in the active segment, given what it then is in the model. */
    method ReserveAs(ghost m: Mgr, ghost x': Seg, data: seq<byte>, now: Time) returns (r: Reservation)
      requires m.live != [] && Represents(m)
      requires var x := Active(m.live); var (w, r) := WalLog.Reserve(g.c, x.sys.w, data);
               PlainOf(x') == Plain(x.base, w, if r.Reserved? then now else x.lastAppend)
      modifies segments[|segments| - 1].Repr()
      ensures segments == old(segments) && Represents(m.(live := m.live[|m.live| - 1 := x']))
      ensures r == WalLog.Reserve(g.c, Active(m.live).sys.w, data).1
    {
      var last := |segments| - 1;
      ghost var m' := m.(live := m.live[last := x']);
      assert Shown(m, last);
      r := segments[last].Reserve(data, now);
      assert segments[last].Value() == PlainOf(x');
      forall i | 0 <= i < last ensures Shown(m', i) {
        assert old(Shown(m, i)) && Disjoint(segments[i], segments[last]);
      }
    }

    /** The objects' bases and sizes are the segments'. */
    lemma SegmentAt(m: Mgr, i: nat)
      requires Represents(m) && i < |segments|
      ensures segments[i].base == m.live[i].base && segments[i].writer.nextOffset == Count(m.live[i])
    {
      assert Shown(m, i);
    }

    /** The segments have the bases of the live segments of `m`. */
    ghost predicate Listed(m: Mgr)
      reads this
    {
      |segments| == |m.live| && forall i :: 0 <= i < |segments| ==> segments[i].base == m.live[i].base
    }

    lemma RepresentedIsListed(m: Mgr)
      requires Represents(m)
      ensures Listed(m)
    {
      forall i | 0 <= i < |segments| ensures segments[i].base == m.live[i].base {
        SegmentAt(m, i);
      }
    }

    /** Binary search for the first segment whose base is above the offset. */
    method Search(ghost m: Mgr, offset: nat) returns (n: nat)
      requires m.live != [] && Ordered(m.live) && Listed(m)
      ensures n <= |segments| && RouteIndex(m.live, offset) == n - 1
    {
      var lo, hi := 0, |segments|;
      while lo < hi
        invariant 0 <= lo <= hi <= |segments|
        invariant forall i :: 0 <= i < lo ==> m.live[i].base <= offset
        invariant forall i :: hi <= i < |segments| ==> m.live[i].base > offset
      {
        var mid := (lo + hi) / 2;
        if segments[mid].base > offset {
          hi := mid;
        } else {
          lo := mid + 1;
        }
      }
      RouteIndexIs(m.live, offset, lo);
      n := lo;
    }

    /** The segment that owns the offset, if one does. */
    method SegmentFor(ghost m: Mgr, offset: nat) returns (seg: Option<nat>)
      requires m.live != [] && Ordered(m.live) && Represents(m)
      ensures seg == match Route(m.live, offset) case Owner(i) => Some(i) case _ => None
    {
      RepresentedIsListed(m);
      var n := Search(m, offset);
      if n == 0 {
        return None;
      }
      SegmentAt(m, n - 1);
      var last := segments[n - 1];
      if offset < last.base || offset >= last.base + last.writer.nextOffset {
        return None;
      }
      return Some(n - 1);
    }

    /** The first half of ReadAt, under the lock: pick the segment and take a reference to it. */
    method StartRead(ghost m: Mgr, ghost r: ReaderId, offset: nat) returns (route: Routing)
      requires m.live != [] && Ordered(m.live) && Represents(m) && r !in m.readers
      modifies segments
      ensures Represents(Next(g, m, Event.StartRead(r, offset))) && route == Route(m.live, offset)
    {
      var seg := SegmentFor(m, offset);
      SegmentAt(m, 0);
      var earliest := segments[0].base;
      if seg.Some? {
        route := Owner(seg.value);
        Acquire(m, seg.value, Routed(m, r, offset));
      } else {
        route := if offset < earliest then TooOld(earliest) else PastEnd;
        SameSegments(m, Routed(m, r, offset));
      }
    }

    method Acquire(ghost m: Mgr, i: nat, ghost m': Mgr)
      requires Represents(m) && Ordered(m.live) && i < |segments|
      requires m'.live == m.live && m'.refs == m.refs[m.live[i].base := Refs(m, m.live[i].base) + 1]
      modifies segments[i]
      ensures segments == old(segments) && Represents(m')
    {
      assert Shown(m, i);
      segments[i].AcquireRead();
      forall j | 0 <= j < |segments| ensures Shown(m', j) {
        if j != i {
          assert old(Shown(m, j)) && m.live[i].base != m.live[j].base;
          assert if i < j then Disjoint(segments[i], segments[j]) else Disjoint(segments[j], segments[i]);
        }
      }
    }

    method Release(ghost m: Mgr, i: nat, ghost m': Mgr)
      requires Represents(m) && Ordered(m.live) && i < |segments| && Refs(m, m.live[i].base) > 0
      requires m'.live == m.live && Refs(m', m.live[i].base) == Refs(m, m.live[i].base) - 1
      requires forall b: nat :: b != m.live[i].base ==> Refs(m', b) == Refs(m, b)
      modifies segments[i]
      ensures Represents(m')
    {
      assert Shown(m, i);
      segments[i].ReleaseRead();
      forall j | 0 <= j < |segments| ensures Shown(m', j) {
        if j != i {
          assert old(Shown(m, j)) && m.live[i].base != m.live[j].base;
          assert if i < j then Disjoint(segments[i], segments[j]) else Disjoint(segments[j], segments[i]);
        }
      }
    }

    /** The end of a read of segment `i`: give the reference back. */
    method FinishRead(ghost m: Mgr, ghost r: ReaderId, i: nat)
      requires Ordered(m.live) && Represents(m) && i < |segments|
      requires r in m.readers && m.readers[r].base == m.live[i].base && Refs(m, m.live[i].base) > 0
      modifies segments[i]
      ensures Represents(Next(g, m, Event.FinishRead(r)))
    {
      Release(m, i, Released(m, r));
    }

    /** The end of a read of a segment that was detached meanwhile. */
    method FinishDetachedRead(ghost m: Mgr, ghost r: ReaderId, s: Segment, ghost x: Seg)
      requires m.live != [] && Represents(m) && x in m.gone && Shows(g, s, x, Refs(m, x.base))
      requires s.Repr() !! Objects(segments) && forall y <- m.live :: y.base != x.base
      requires r in m.readers && m.readers[r].base == x.base && Refs(m, x.base) > 0
      modifies s
      ensures var m' := Next(g, m, Event.FinishRead(r)); Represents(m') && Shows(g, s, x, Refs(m', x.base))
    {
      ghost var m' := Released(m, r);
      s.ReleaseRead();
      forall j | 0 <= j < |segments| ensures Shown(m', j) {
        assert old(Shown(m, j)) && m.live[j] in m.live && segments[j] in segments;
      }
    }

    /** The read itself, without the lock, from a segment that is live. */
    method ReadFromSegment(ghost m: Mgr, i: nat, offset: nat) returns (r: ReadResult)
      requires FilesOk(g, m) && Represents(m) && i < |segments|
      ensures r == if offset < m.live[i].base then ReadFailed else ReadIn(g, m.live[i], offset)
    {
      assert Shown(m, i);
      assert IsFile(m, m.live[i]) && SegOk(g, m.live[i]);
      r := segments[i].ReadAt(offset);
    }

    /** ReadAt with nothing in between: route and take the reference, read, give the reference back. */
    method ReadAt(ghost m: Mgr, offset: nat) returns (a: Answer)
      requires FilesOk(g, m) && Represents(m)
      modifies segments
      ensures segments == old(segments) && Represents(m) && a == ManagerRead(g, m.live, offset)
    {
      var seg := SegmentFor(m, offset);
      SegmentAt(m, 0);
      var earliest := segments[0].base;
      if seg.Some? {
        var r := ReadHolding(m, seg.value, offset);
        return Answer(r);
      }
      return if offset < earliest then OutOfRetention(offset, earliest) else Answer(Eof);
    }

    method ReadHolding(ghost m: Mgr, i: nat, offset: nat) returns (r: ReadResult)
      requires FilesOk(g, m) && Represents(m) && i < |segments|
      modifies segments[i]
      ensures segments == old(segments) && Represents(m)
      ensures r == if offset < m.live[i].base then ReadFailed else ReadIn(g, m.live[i], offset)
    {
      ghost var b := m.live[i].base;
      ghost var held := m.(refs := m.refs[b := Refs(m, b) + 1]);
      Acquire(m, i, held);
      SameFiles(g, m, held);
      r := ReadFromSegment(held, i, offset);
      Release(held, i, m);
    }

    method NextOffset(ghost m: Mgr) returns (o: nat)
      requires m.live != [] && Represents(m)
      ensures o == End(Active(m.live))
    {
      SegmentAt(m, |segments| - 1);
      var last := segments[|segments| - 1];
      o := last.base + last.writer.nextOffset;
    }

    method EarliestOffset(ghost m: Mgr) returns (o: nat)
      requires m.live != [] && Represents(m)
      ensures o == m.live[0].base
    {
      SegmentAt(m, 0);
      o := segments[0].base;
    }

    /** A commit of segment `i` by caller `t`, up to the fsync. */
    method TakeTurn(ghost m: Mgr, i: nat, ghost t: WalSystem.ThreadId, ticket: nat) returns (turn: Turn)
      requires Represents(m) && Enabled(m, LiveCommit(i, WalSystem.TakeTurn(t)))
      requires ticket == m.live[i].sys.calls[t].ticket
      modifies segments[i].Repr()
      ensures segments == old(segments) && Represents(Next(g, m, LiveCommit(i, WalSystem.TakeTurn(t))))
      ensures turn == CommitTurn(m.live[i].sys.w, ticket).1
    {
      assert Shown(m, i);
      ghost var m' := Next(g, m, LiveCommit(i, WalSystem.TakeTurn(t)));
      turn := segments[i].TakeTurn(ticket);
      forall j | 0 <= j < |segments| ensures Shown(m', j) {
        if j != i {
          assert old(Shown(m, j));
          assert if i < j then Disjoint(segments[i], segments[j]) else Disjoint(segments[j], segments[i]);
        }
      }
    }

    /** The same commit after its fsync, which succeeded or not. */
    method FinishSync(ghost m: Mgr, i: nat, ghost t: WalSystem.ThreadId, target: nat, flushed: nat, ok: bool)
      requires Represents(m) && Enabled(m, LiveCommit(i, WalSystem.FinishSync(t, ok)))
      requires target == m.live[i].sys.calls[t].target && flushed == m.live[i].sys.calls[t].flushed
      modifies segments[i].Repr()
      ensures segments == old(segments) && Represents(Next(g, m, LiveCommit(i, WalSystem.FinishSync(t, ok))))
    {
      assert Shown(m, i);
      ghost var m' := Next(g, m, LiveCommit(i, WalSystem.FinishSync(t, ok)));
      segments[i].FinishSync(target, flushed, ok);
      forall j | 0 <= j < |segments| ensures Shown(m', j) {
        if j != i {
          assert old(Shown(m, j));
          assert if i < j then Disjoint(segments[i], segments[j]) else Disjoint(segments[j], segments[i]);
        }
      }
    }

    /** A retention pass, first phase: choose the segments to delete and detach them. */
    method DetachExpired(ghost m: Mgr, now: Time) returns (victims: seq<Segment>)
      requires m.live != [] && Represents(m)
      modifies this
      ensures Represents(Next(g, m, Detach(now)))
      ensures victims + segments == old(segments) && |victims| == Victims(g, m.live, now)
    {
      var n := CountExpired(m, now);
      victims := segments[..n];
      Keep(m, n, Next(g, m, Detach(now)));
    }

    /** The loop that chooses them. */
    method CountExpired(ghost m: Mgr, now: Time) returns (n: nat)
      requires m.live != [] && Represents(m)
      ensures n == Victims(g, m.live, now)
    {
      var cutoff := now - g.retention;
      n := 0;
      while n < |segments| - 1
        invariant 0 <= n <= |segments| - 1
        invariant VictimsFrom(m.live, cutoff, g.limit, n) == Victims(g, m.live, now)
      {
        assert Shown(m, n);
        if segments[n].lastAppend > cutoff {
          break;
        }
        if g.limit > 0 && n >= g.limit {
          break;
        }
        n := n + 1;
      }
    }

    /** Keep the segments from `n` on. */
    method Keep(ghost m: Mgr, n: nat, ghost m': Mgr)
      requires Represents(m) && n <= |segments| && m'.live == m.live[n..] && m'.refs == m.refs
      modifies this`segments
      ensures segments == old(segments)[n..] && Represents(m')
    {
      ghost var before := segments;
      segments := segments[n..];
      forall i, j | 0 <= i < j < |segments| ensures Disjoint(segments[i], segments[j]) {
        assert Disjoint(before[n + i], before[n + j]);
      }
      forall i | 0 <= i < |segments| ensures Shown(m', i) {
        assert old(Shown(m, n + i)) && before[n + i] in before;
      }
    }

    /** A retention pass, second phase: once nobody reads a detached segment, close it and remove its files. */
    method CloseDetached(ghost m: Mgr, s: Segment, ghost x: Seg, syncOk: bool) returns (ok: bool)
      requires m.live != [] && Represents(m) && Enabled(m, CloseVictim(x)) && Shows(g, s, x, 0)
      requires s.Repr() !! Objects(segments) && this !in s.Repr()
      modifies s.Repr()
      ensures Represents(Next(g, m, CloseVictim(x)))
      ensures ok ==> s.Valid() && s.Value().w == WalLog.Close(g.nth, x.sys.w)
    {
      ok := s.Close(syncOk);
      forall j | 0 <= j < |segments| ensures Shown(Next(g, m, CloseVictim(x)), j) {
        assert old(Shown(m, j)) && segments[j] in segments;
      }
    }
  }

  // ---------- opening a directory ----------

  /** One segment's files as the directory holds them. */
  datatype Disk = Disk(base: nat, log: File, index: File, modTime: Time)

  /** What opening those files gives. */
  function Opening(c: Checksum, d: Disk): WalLog.Opening
    reads d.log, d.index
  {
    Open(c, d.log.bytes, d.log.durable, d.index.bytes)
  }

  ghost function Openings(c: Checksum, disks: seq<Disk>): (os: seq<WalLog.Opening>)
    reads set d | d in disks :: d.log, set d | d in disks :: d.index
    ensures |os| == |disks| && forall k :: 0 <= k < |os| ==> os[k] == Opening(c, disks[k])
  {
    if disks == [] then [] else Openings(c, disks[..|disks| - 1]) + [Opening(c, disks[|disks| - 1])]
  }

  /** The files are there to be opened, with this outcome. */
  ghost predicate Closed(c: Checksum, d: Disk, o: WalLog.Opening)
    reads d.log, d.index
  {
    d.log != d.index && |d.log.bytes| < TWO_63 && Opening(c, d) == o
  }

  /** The object is what opening those files gave. */
  ghost predicate Built(g: Config, s: Segment, d: Disk, o: WalLog.Opening)
    reads s.Repr()
  {
    Fits(g, s) && s.readers == 0 && o.Opened? && s.Value() == Plain(d.base, o.wal, d.modTime)
  }

  ghost predicate NoShare(d: Disk, e: Disk) {
    {d.log, d.index} !! {e.log, e.index}
  }

  ghost predicate Untied(s: Segment, d: Disk) {
    s.Repr() !! {d.log, d.index}
  }

  ghost predicate AllClosed(c: Checksum, disks: seq<Disk>, os: seq<WalLog.Opening>, i: nat)
    requires |os| == |disks|
    reads set d | d in disks :: d.log, set d | d in disks :: d.index
  {
    forall k {:trigger Closed(c, disks[k], os[k])} :: i <= k < |disks| ==> Closed(c, disks[k], os[k])
  }

  ghost predicate AllBuilt(g: Config, segments: seq<Segment>, disks: seq<Disk>, os: seq<WalLog.Opening>)
    requires |segments| <= |os| == |disks|
    reads Objects(segments)
  {
    forall k {:trigger Built(g, segments[k], disks[k], os[k])} :: 0 <= k < |segments| ==>
      Built(g, segments[k], disks[k], os[k])
  }

  /** No file is shared, and no object made so far owns a file still to be opened. */
  ghost predicate AllUntied(segments: seq<Segment>, disks: seq<Disk>) {
    forall j, k {:trigger Untied(segments[j], disks[k])} :: 0 <= j < |segments| <= k < |disks| ==>
      Untied(segments[j], disks[k])
  }

  ghost predicate NoneShared(disks: seq<Disk>) {
    forall j, k {:trigger NoShare(disks[j], disks[k])} :: 0 <= j < k < |disks| ==> NoShare(disks[j], disks[k])
  }

  /** Open the next segment of a directory. */
  method OpenNext(g: Config, disks: seq<Disk>, ghost os: seq<WalLog.Opening>, segments: seq<Segment>)
    returns (s: Segment)
    requires |segments| < |disks| == |os| && AllBuilt(g, segments, disks, os)
    requires AllUntied(segments, disks) && NoneShared(disks) && AllClosed(g.c, disks, os, |segments|)
    modifies disks[|segments|].log, disks[|segments|].index
    ensures s.recovered == os[|segments|].Opened? && (s.recovered ==> Built(g, s, disks[|segments|], os[|segments|]))
    ensures AllBuilt(g, segments, disks, os) && forall k :: 0 <= k < |segments| ==> Disjoint(segments[k], s)
    ensures AllClosed(g.c, disks, os, |segments| + 1)
    ensures forall k :: |segments| < k < |disks| ==> Untied(s, disks[k])
  {
    var i := |segments|;
    var d := disks[i];
    assert Closed(g.c, d, os[i]);
    s := new Segment.Reopen(d.base, d.log, d.index, d.modTime, g.c, g.nth);
    forall k | 0 <= k < i ensures Built(g, segments[k], disks[k], os[k]) && Disjoint(segments[k], s) {
      assert old(Built(g, segments[k], disks[k], os[k])) && Untied(segments[k], d);
    }
    forall k | i < k < |disks| ensures Closed(g.c, disks[k], os[k]) && Untied(s, disks[k]) {
      assert old(Closed(g.c, disks[k], os[k])) && NoShare(d, disks[k]);
    }
  }

  lemma OneMoreUntied(segments: seq<Segment>, s: Segment, disks: seq<Disk>)
    requires |segments| < |disks| && AllUntied(segments, disks) && Separate(segments)
    requires forall k :: 0 <= k < |segments| ==> Disjoint(segments[k], s)
    requires forall k :: |segments| < k < |disks| ==> Untied(s, disks[k])
    ensures AllUntied(segments + [s], disks) && Separate(segments + [s])
  {
    var all := segments + [s];
    forall j, k | 0 <= j < |all| <= k < |disks| ensures Untied(all[j], disks[k]) {
      assert j < |segments| ==> Untied(segments[j], disks[k]);
    }
    forall j, k | 0 <= j < k < |all| ensures Disjoint(all[j], all[k]) {
      assert k < |segments| ==> Disjoint(segments[j], segments[k]);
    }
  }

  lemma OneMoreBuilt(g: Config, segments: seq<Segment>, s: Segment, disks: seq<Disk>, os: seq<WalLog.Opening>)
    requires |segments| < |disks| == |os| && AllBuilt(g, segments, disks, os)
    requires Built(g, s, disks[|segments|], os[|segments|])
    ensures AllBuilt(g, segments + [s], disks, os)
  {
    var all := segments + [s];
    forall k | 0 <= k < |all| ensures Built(g, all[k], disks[k], os[k]) {
      assert k < |segments| ==> Built(g, segments[k], disks[k], os[k]);
    }
  }

  /** Open the segments of a directory, in order of base offset, with the outcomes `os`; one that cannot be recovered
      fails the whole. */
  method OpenSegments(g: Config, disks: seq<Disk>, ghost os: seq<WalLog.Opening>)
    returns (segments: seq<Segment>, ok: bool)
    requires |os| == |disks| && AllClosed(g.c, disks, os, 0) && NoneShared(disks)
    modifies set d | d in disks :: d.log, set d | d in disks :: d.index
    ensures ok <==> forall k :: 0 <= k < |os| ==> os[k].Opened?
    ensures ok ==> |segments| == |disks| && Separate(segments) && AllBuilt(g, segments, disks, os)
  {
    segments, ok := [], true;
    for i := 0 to |disks|
      invariant |segments| == i && forall k :: 0 <= k < i ==> os[k].Opened?
      invariant Separate(segments) && AllBuilt(g, segments, disks, os)
      invariant AllUntied(segments, disks) && AllClosed(g.c, disks, os, i)
    {
      assert disks[i] in disks;
      var s := OpenNext(g, disks, os, segments);
      if !s.recovered {
        ok := false;
        return;
      }
      OneMoreUntied(segments, s, disks);
      OneMoreBuilt(g, segments, s, disks, os);
      segments := segments + [s];
    }
  }

  /** The files hold what a crash left of the segment. */
  ghost predicate IsLeft(d: Disk, x: Seg, l: Loss)
    reads d.log, d.index
  {
    && d.base == x.base && d.modTime == l.modTime && d.log != d.index
    && l.length <= |x.sys.w.bytes| && d.log.bytes == x.sys.w.bytes[..l.length]
    && d.log.durable == l.durable && d.index.bytes == l.index
  }

  /** What a crash leaves of a segment opens as the segment recovered. */
  lemma LeftOpens(g: Config, m: Mgr, survivors: seq<Seg>, losses: seq<Loss>, i: nat, d: Disk)
    requires FixedWidth(g.c) && FilesOk(g, m) && CrashLeaves(m, survivors, losses) && i < |survivors|
    requires IsLeft(d, survivors[i], losses[i])
    ensures |d.log.bytes| < TWO_63 && Opening(g.c, d).Opened?
    ensures PlainOf(Recovered(g, survivors[i], losses[i])) == Plain(d.base, Opening(g.c, d).wal, d.modTime)
  {
    var x, l := survivors[i], losses[i];
    assert x in survivors && IsFile(m, x) && SegOk(g, x);
    var n := WalSteps.OpenRecovers(g.c, x.sys.w, x.sys.ps, l.length, l.durable, l.index);
  }

  ghost predicate AllLeft(disks: seq<Disk>, survivors: seq<Seg>, losses: seq<Loss>)
    requires |disks| == |survivors| == |losses|
    reads set d | d in disks :: d.log, set d | d in disks :: d.index
  {
    forall k {:trigger IsLeft(disks[k], survivors[k], losses[k])} :: 0 <= k < |disks| ==>
      IsLeft(disks[k], survivors[k], losses[k])
  }

  /** Open a directory after a crash: reopen every file that is there, in order of base offset. */
  method OpenAfterCrash(g: Config, disks: seq<Disk>, ghost m: Mgr, ghost survivors: seq<Seg>, ghost losses: seq<Loss>)
    returns (manager: Manager)
    requires FixedWidth(g.c) && FilesOk(g, m) && CrashLeaves(m, survivors, losses)
    requires |disks| == |survivors| && NoneShared(disks) && AllLeft(disks, survivors, losses)
    modifies set d | d in disks :: d.log, set d | d in disks :: d.index
    ensures manager.g == g && manager.Represents(Reopened(g, m, survivors, losses))
  {
    ghost var os := Openings(g.c, disks);
    ghost var m' := Reopened(g, m, survivors, losses);
    forall k | 0 <= k < |disks|
      ensures Closed(g.c, disks[k], os[k]) && os[k].Opened?
      ensures PlainOf(m'.live[k]) == Plain(disks[k].base, os[k].wal, disks[k].modTime)
    {
      assert IsLeft(disks[k], survivors[k], losses[k]);
      LeftOpens(g, m, survivors, losses, k, disks[k]);
    }
    var segments, ok := OpenSegments(g, disks, os);
    forall k | 0 <= k < |segments| ensures Shows(g, segments[k], m'.live[k], Refs(m', m'.live[k].base)) {
      assert Built(g, segments[k], disks[k], os[k]);
    }
    manager := new Manager.Of(g, segments, m');
  }

  /** A consumer's cursor. */
  class Reader {
    const m: Manager
    var offset: nat

    constructor (m: Manager, ghost s: Mgr)
      requires s.live != [] && m.Represents(s)
      ensures this.m == m && offset == s.live[0].base
    {
      var earliest := m.EarliestOffset(s);
      this.m, offset := m, earliest;
    }

    /** The record at the cursor; the cursor moves on by one exactly when there is one. */
    method Next(ghost s: Mgr) returns (a: Answer, at: nat)
      requires FilesOk(m.g, s) && m.Represents(s)
      modifies this`offset, m.segments
      ensures m.Represents(s) && a == ManagerRead(m.g, s.live, old(offset)) && at == old(offset)
      ensures offset == Advanced(a, old(offset))
    {
      at := offset;
      a := m.ReadAt(s, at);
      if a.Answer? && a.r.Data? {
        offset := at + 1;
      }
    }

    method ResetToEarliest(ghost s: Mgr) returns (earliest: nat)
      requires s.live != [] && m.Represents(s)
      modifies this`offset
      ensures offset == earliest == s.live[0].base
    {
      earliest := m.EarliestOffset(s);
      offset := earliest;
    }

    method Seek(to: nat)
      modifies this`offset
      ensures offset == to
    {
      offset := to;
    }
  }
}
