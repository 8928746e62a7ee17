/** A consumer's cursor over the segmented log. */
module SegmentCursor {
  import opened Bytes
  import opened WalFormat
  import opened WalReading
  import opened Segments
  import opened SegmentInvariant
  import opened SegmentSteps
  import opened SegmentList
  import opened SegmentGaps
  import WalSystem

  /** The cursor moves on by one when a record was read, and stays otherwise. */
  function Advanced(a: Answer, c: nat): nat {
    if a.Answer? && a.r.Data? then c + 1 else c
  }

  /** Where a cursor is after calling Next once in each of the states numbered `ks`, in this order. */
  function CursorAfter(g: Config, states: seq<Mgr>, ks: seq<nat>, c: nat): nat
    requires forall i :: 0 <= i < |ks| ==> ks[i] < |states| && states[ks[i]].live != []
  {
    if ks == [] then c
    else
      var at := CursorAfter(g, states, ks[..|ks| - 1], c);
      Advanced(ManagerRead(g, states[ks[|ks| - 1]].live, at), at)
  }

  /** The payloads those calls return. */
  function Heard(g: Config, states: seq<Mgr>, ks: seq<nat>, c: nat): seq<seq<byte>>
    requires forall i :: 0 <= i < |ks| ==> ks[i] < |states| && states[ks[i]].live != []
  {
    if ks == [] then []
    else
      var at := CursorAfter(g, states, ks[..|ks| - 1], c);
      var a := ManagerRead(g, states[ks[|ks| - 1]].live, at);
      Heard(g, states, ks[..|ks| - 1], c) + if a.Answer? && a.r.Data? then [a.r.payload] else []
  }

  ghost predicate IsAt(log: map<nat, Payload>, o: nat, p: seq<byte>) {
    o in log && log[o] == p
  }

  /** These payloads are on record from offset `c` on. */
  ghost predicate AreAt(log: map<nat, Payload>, c: nat, ps: seq<seq<byte>>) {
    forall x: nat :: x < |ps| ==> IsAt(log, c + x, ps[x])
  }

  lemma OneMoreHeard(log: map<nat, Payload>, c: nat, heard: seq<seq<byte>>, p: seq<byte>)
    requires AreAt(log, c, heard) && IsAt(log, c + |heard|, p)
    ensures AreAt(log, c, heard + [p])
  {
  }

  lemma {:induction false} LogGrows(g: Config, states: seq<Mgr>, events: seq<Event>, j: nat, k: nat)
    requires IsRun(g, states, events) && CrashFree(events, j, k)
    ensures forall o <- states[j].log :: o in states[k].log && states[k].log[o] == states[j].log[o]
    decreases k
  {
    if j < k {
      LogGrows(g, states, events, j, k - 1);
      StepLogGrows(g, states, events, k - 1);
    }
  }

  lemma StepLogGrows(g: Config, states: seq<Mgr>, events: seq<Event>, k: nat)
    requires IsRun(g, states, events) && k < |events| && !events[k].Crash?
    ensures forall o <- states[k].log :: o in states[k + 1].log && states[k + 1].log[o] == states[k].log[o]
    ensures states[k].live != []
    ensures forall o <- states[k + 1].log :: o in states[k].log || o >= End(Active(states[k].live))
  {
    RunHasCore(g, states, events, k);
    RunHasLog(g, states, events, k);
    RunStep(g, states, events, k);
    if events[k].AppendReserve? {
      AppendTakesHead(g, states[k].live, events[k].data, events[k].now);
      forall o <- states[k].log ensures o < End(Active(states[k].live)) {
        RecordIsBelowHead(g, states[k], o);
      }
    }
  }

  lemma RunIsLive(g: Config, states: seq<Mgr>, events: seq<Event>, ks: seq<nat>)
    requires IsRun(g, states, events) && forall i :: 0 <= i < |ks| ==> ks[i] < |states|
    ensures forall i :: 0 <= i < |ks| ==> states[ks[i]].live != []
  {
    forall i | 0 <= i < |ks| ensures states[ks[i]].live != [] {
      RunHasCore(g, states, events, ks[i]);
    }
  }

  /** Whatever a read of these segments returns is on record. */
  ghost predicate ReadsFrom(g: Config, live: seq<Seg>, log: map<nat, Payload>)
    requires live != []
  {
    forall at: nat :: ReadOk(ManagerRead(g, live, at), log, at)
  }

  ghost predicate ReadOk(a: Answer, log: map<nat, Payload>, at: nat) {
    a.Answer? && a.r.Data? ==> IsAt(log, at, a.r.payload)
  }

  /** In a state from which no crash leads to state `k`, what a read returns is on record at `k`. */
  lemma NextReadsLog(g: Config, states: seq<Mgr>, events: seq<Event>, j: nat, k: nat)
    requires IsRun(g, states, events) && CrashFree(events, j, k)
    ensures states[j].live != [] && ReadsFrom(g, states[j].live, states[k].log)
  {
    RunHasCore(g, states, events, j);
    LogGrows(g, states, events, j, k);
    forall at: nat ensures ReadOk(ManagerRead(g, states[j].live, at), states[k].log, at) {
      ReadsAreLookups(g, states, events, j, at);
    }
  }

  lemma {:induction false} HearsFromLog(g: Config, states: seq<Mgr>, ks: seq<nat>, c: nat, log: map<nat, Payload>)
    requires forall i :: 0 <= i < |ks| ==>
               ks[i] < |states| && states[ks[i]].live != [] && ReadsFrom(g, states[ks[i]].live, log)
    ensures CursorAfter(g, states, ks, c) == c + |Heard(g, states, ks, c)|
    ensures AreAt(log, c, Heard(g, states, ks, c))
    decreases |ks|
  {
    if ks != [] {
      var init, last := ks[..|ks| - 1], ks[|ks| - 1];
      HearsFromLog(g, states, init, c, log);
      var at, heard := CursorAfter(g, states, init, c), Heard(g, states, init, c);
      var a := ManagerRead(g, states[last].live, at);
      assert ReadOk(a, log, at);
      if a.Answer? && a.r.Data? {
        OneMoreHeard(log, c, heard, a.r.payload);
      } else {
        assert heard + [] == heard;
      }
    }
  }

  /** From any reachable state, while nothing crashes, a consumer that calls Next any number of times, at any moments,
      whatever appends and retention passes come in between, hears exactly the records from where its cursor started
      to where it is now: each once, in order, none skipped. */
  lemma CursorHearsEverything(g: Config, states: seq<Mgr>, events: seq<Event>, j: nat, k: nat, ks: seq<nat>, c: nat)
    requires IsRun(g, states, events) && CrashFree(events, j, k)
    requires forall i :: 0 <= i < |ks| ==> j <= ks[i] <= k
    ensures forall i :: 0 <= i < |ks| ==> states[ks[i]].live != []
    ensures var at, heard := CursorAfter(g, states, ks, c), Heard(g, states, ks, c);
            at == c + |heard| && AreAt(states[k].log, c, heard)
  {
    forall i | 0 <= i < |ks|
      ensures states[ks[i]].live != [] && ReadsFrom(g, states[ks[i]].live, states[k].log)
    {
      NextReadsLog(g, states, events, ks[i], k);
    }
    HearsFromLog(g, states, ks, c, states[k].log);
  }

  /** The log has a record for the call of Next: contiguous segments, the earliest at or below the offset, the head past
      it. */
  ghost predicate Ready(live: seq<Seg>, at: nat) {
    live != [] && Contiguous(live) && live[0].base <= at < End(Active(live))
  }

  lemma NextMoves(g: Config, states: seq<Mgr>, events: seq<Event>, k: nat, at: nat)
    requires IsRun(g, states, events) && k < |states| && Ready(states[k].live, at)
    ensures ManagerRead(g, states[k].live, at).Answer? && ManagerRead(g, states[k].live, at).r.Data?
  {
    ReadsLikeAList(g, states, events, k, at);
  }

  /** A consumer that is behind the head and within retention hears a record at every call. */
  lemma {:induction false} CursorKeepsUp(g: Config, states: seq<Mgr>, events: seq<Event>, ks: seq<nat>, c: nat)
    requires IsRun(g, states, events)
    requires forall i :: 0 <= i < |ks| ==> ks[i] < |states| && states[ks[i]].live != []
    requires forall i :: 0 <= i < |ks| ==> Ready(states[ks[i]].live, c + i)
    ensures CursorAfter(g, states, ks, c) == c + |ks| && |Heard(g, states, ks, c)| == |ks|
    decreases |ks|
  {
    if ks != [] {
      CursorKeepsUp(g, states, events, ks[..|ks| - 1], c);
      NextMoves(g, states, events, ks[|ks| - 1], c + |ks| - 1);
    }
  }

  // ---------- gaps ----------

  lemma GapIsUnrecorded(g: Config, states: seq<Mgr>, events: seq<Event>, k: nat, c: nat)
    requires IsRun(g, states, events) && k < |states| && InGap(states[k].live, c)
    ensures states[k].live != [] && c !in states[k].log && c < End(Active(states[k].live))
  {
    var m := states[k];
    EofIff(g, states, events, k, c);
    ReadsAreLookups(g, states, events, k, c);
    RunHasCore(g, states, events, k);
    var i, j :| 0 <= i < j < |m.live| && j == i + 1 && End(m.live[i]) <= c < m.live[j].base;
    assert IsFile(m, m.live[j]);
    ActiveIsLast(g, m, m.live[j]);
    assert m.live[0].base <= m.live[i].base;
  }

  lemma {:induction false} GapStaysUnrecorded(g: Config, states: seq<Mgr>, events: seq<Event>, j: nat, k: nat, c: nat)
    requires IsRun(g, states, events) && CrashFree(events, j, k) && InGap(states[j].live, c)
    ensures states[k].live != [] && c !in states[k].log && c < End(Active(states[k].live))
    decreases k
  {
    if j == k {
      GapIsUnrecorded(g, states, events, j, c);
    } else {
      GapStaysUnrecorded(g, states, events, j, k - 1, c);
      StepLogGrows(g, states, events, k - 1);
      HeadNeverFalls(g, states, events, k - 1);
    }
  }

  lemma HeadNeverFalls(g: Config, states: seq<Mgr>, events: seq<Event>, k: nat)
    requires IsRun(g, states, events) && k < |events| && !events[k].Crash?
    ensures states[k].live != [] && states[k + 1].live != []
    ensures End(Active(states[k].live)) <= End(Active(states[k + 1].live))
  {
    var m, e := states[k], events[k];
    RunHasCore(g, states, events, k);
    RunHasCore(g, states, events, k + 1);
    RunStep(g, states, events, k);
    StepKeepsHead(g, m, e);
  }

  lemma StepKeepsHead(g: Config, m: Mgr, e: Event)
    requires FixedWidth(g.c) && 1 <= g.maxBytes && FilesOk(g, m) && Enabled(m, e) && !e.Crash?
    ensures Next(g, m, e).live != [] && End(Active(m.live)) <= End(Active(Next(g, m, e).live))
  {
    match e
    case AppendReserve(data, now) => AppendKeepsHead(g, m, data, now);
    case LiveCommit(i, e') => CommitKeepsHead(g, m, i, e');
    case _ =>
  }

  lemma CommitKeepsHead(g: Config, m: Mgr, i: nat, e: WalSystem.Event)
    requires FixedWidth(g.c) && FilesOk(g, m) && Enabled(m, LiveCommit(i, e))
    ensures End(Active(m.live[i := Stepped(g, m.live[i], e)])) == End(Active(m.live))
  {
    assert IsFile(m, m.live[i]) && SegOk(g, m.live[i]);
    SteppedOk(g, m.live[i], e);
  }

  lemma AppendKeepsHead(g: Config, m: Mgr, data: seq<byte>, now: Time)
    requires FixedWidth(g.c) && 1 <= g.maxBytes && FilesOk(g, m)
    ensures End(Active(m.live)) <= End(Active(AppendedTo(g, m.live, data, now)))
  {
    AppendTakesHead(g, m.live, data, now);
    RollKeepsFiles(g, m, now);
    var mid := m.(live := Rolled(g, m.live, now));
    ActiveOk(g, mid);
    ReserveInOk(g, Active(mid.live), data, now);
  }

  /** A consumer whose cursor stands in a gap that a crash left hears nothing more, and is not told it has skipped
      anything, until it seeks, retention passes the gap, or the log is reopened. */
  lemma {:induction false} CursorWaitsInGap(g: Config, states: seq<Mgr>, events: seq<Event>, j: nat, k: nat,
                                            ks: seq<nat>, c: nat)
    requires IsRun(g, states, events) && CrashFree(events, j, k) && InGap(states[j].live, c)
    requires forall i :: 0 <= i < |ks| ==> j <= ks[i] <= k
    ensures forall i :: 0 <= i < |ks| ==> states[ks[i]].live != []
    ensures CursorAfter(g, states, ks, c) == c
    ensures forall i :: 0 <= i < |ks| && states[ks[i]].live[0].base <= c ==>
              ManagerRead(g, states[ks[i]].live, c) == Answer(Eof)
    decreases |ks|
  {
    RunIsLive(g, states, events, ks);
    forall i | 0 <= i < |ks|
      ensures var m := states[ks[i]];
              ManagerRead(g, m.live, c) == if c < m.live[0].base then OutOfRetention(c, m.live[0].base) else Answer(Eof)
    {
      GapStaysUnrecorded(g, states, events, j, ks[i], c);
      ReadsAreLookups(g, states, events, ks[i], c);
    }
    if ks != [] {
      CursorWaitsInGap(g, states, events, j, k, ks[..|ks| - 1], c);
      assert ks[|ks| - 1] == ks[|ks| - 1];
    }
  }
}
