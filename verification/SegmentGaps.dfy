/** Gaps between segments: when the end-of-log answer does not mean the head of the log. */
module SegmentGaps {
  import opened WalFormat
  import opened WalRecovery
  import opened WalReading
  import opened Segments
  import opened SegmentInvariant
  import opened SegmentSteps
  import opened SegmentReads
  import WalSystem
  import WalSteps

  // ---------- in every reachable state ----------

  /** The offset lies between two live segments. */
  ghost predicate InGap(live: seq<Seg>, offset: nat) {
    exists i, j :: 0 <= i < j < |live| && j == i + 1 && End(live[i]) <= offset < live[j].base
  }

  /** In every reachable state a read finds the end of the log exactly at or past the head, or in a gap between two
      segments. */
  lemma EofIff(g: Config, states: seq<Mgr>, events: seq<Event>, k: nat, offset: nat)
    requires IsRun(g, states, events) && k < |states|
    ensures states[k].live != []
    ensures var live := states[k].live;
            ManagerRead(g, live, offset) == Answer(Eof) <==> offset >= End(Active(live)) || InGap(live, offset)
  {
    RunHasCore(g, states, events, k);
    EofInState(g, states[k], offset);
  }

  lemma EofInState(g: Config, m: Mgr, offset: nat)
    requires FixedWidth(g.c) && FilesOk(g, m)
    ensures ManagerRead(g, m.live, offset) == Answer(Eof) <==> offset >= End(Active(m.live)) || InGap(m.live, offset)
  {
    var live := m.live;
    if offset < live[0].base {
      BelowFirst(live, offset);
      forall i | 0 <= i < |live| ensures offset < live[i].base {
        assert live[0].base <= live[i].base;
      }
    } else {
      var i := OwnedOrGap(live, offset);
      if Contains(live[i], offset) {
        LiveReadIsLookup(g, m, live[i], offset);
        NoGapInside(g, m, i, offset);
      } else {
        NotOwned(g, m, i, offset);
        UnownedRead(g, live, offset);
        assert i + 1 < |live| ==> End(live[i]) <= offset < live[i + 1].base;
      }
    }
  }

  lemma NoGapInside(g: Config, m: Mgr, k: nat, offset: nat)
    requires FilesOk(g, m) && k < |m.live| && Contains(m.live[k], offset)
    ensures offset < End(Active(m.live))
    ensures forall i, j :: 0 <= i < j < |m.live| && j == i + 1 ==> !(End(m.live[i]) <= offset < m.live[j].base)
  {
    assert IsFile(m, m.live[k]);
    ActiveIsLast(g, m, m.live[k]);
    forall i, j | 0 <= i < j < |m.live| && j == i + 1 ensures !(End(m.live[i]) <= offset < m.live[j].base) {
      assert k < i ==> m.live[k].base < m.live[i].base;
      assert IsFile(m, m.live[i]) && Apart(m.live[k], m.live[i]);
      assert j <= k ==> m.live[j].base <= m.live[k].base;
    }
  }

  lemma NotOwned(g: Config, m: Mgr, i: nat, offset: nat)
    requires FilesOk(g, m) && i < |m.live| && m.live[i].base <= offset && !Contains(m.live[i], offset)
    requires i + 1 < |m.live| ==> offset < m.live[i + 1].base
    ensures forall x <- m.live :: !Contains(x, offset)
  {
    forall k | 0 <= k < |m.live| ensures !Contains(m.live[k], offset) {
      if k < i {
        assert IsFile(m, m.live[k]) && IsFile(m, m.live[i]) && Apart(m.live[k], m.live[i]);
      } else if k > i {
        assert m.live[i + 1].base <= m.live[k].base;
      }
    }
  }

  /** The end-of-log answer means at or past the head. */
  ghost predicate EofMeansHead(g: Config, live: seq<Seg>)
    requires live != []
  {
    forall offset: nat :: ManagerRead(g, live, offset) == Answer(Eof) ==> offset >= End(Active(live))
  }

  /** It does so exactly when the segments are contiguous. */
  lemma EofMeansHeadIff(g: Config, m: Mgr)
    requires FixedWidth(g.c) && FilesOk(g, m)
    ensures EofMeansHead(g, m.live) <==> Contiguous(m.live)
  {
    var live := m.live;
    if Contiguous(live) {
      forall offset: nat | ManagerRead(g, live, offset) == Answer(Eof) ensures offset >= End(Active(live)) {
        EofInState(g, m, offset);
      }
    } else {
      var i, j :| 0 <= i < j < |live| && j == i + 1 && End(live[i]) != live[j].base;
      assert IsFile(m, live[i]) && IsFile(m, live[j]) && Apart(live[i], live[j]);
      ActiveIsLast(g, m, live[i]);
      assert live[i].base < live[j].base;
      EofInState(g, m, End(live[i]));
      assert i != |live| - 1 && live[i].base < Active(live).base;
      GapIsBelowHead(g, m, i, j);
    }
  }

  lemma GapIsBelowHead(g: Config, m: Mgr, i: nat, j: nat)
    requires FilesOk(g, m) && i < j < |m.live| && j == i + 1 && End(m.live[i]) < m.live[j].base
    ensures End(m.live[i]) < End(Active(m.live))
  {
    assert IsFile(m, m.live[j]);
    ActiveIsLast(g, m, m.live[j]);
  }

  // ---------- what a crash does ----------

  lemma AllOrLess(c: Checksum, ps: seq<Payload>, length: nat, n: nat)
    requires FixedWidth(c) && length <= |Frame(c, ps)| && IsWhole(c, ps, length, n)
    ensures n == |ps| <==> length == |Frame(c, ps)|
  {
    assert ps[..|ps|] == ps;
    if n < |ps| {
      StartMonotone(c, ps, n + 1, |ps|);
    }
  }

  lemma RecoveredCount(g: Config, x: Seg, l: Loss)
    requires FixedWidth(g.c) && SegOk(g, x) && WalSystem.Enabled(x.sys, LossEvent(l))
    ensures Count(Recovered(g, x, l)) == Count(x) <==> l.length == |x.sys.w.bytes|
    ensures IsWhole(g.c, x.sys.ps, l.length, Count(Recovered(g, x, l)))
  {
    var n := WalSteps.OpenRecovers(g.c, x.sys.w, x.sys.ps, l.length, l.durable, l.index);
    AllOrLess(g.c, x.sys.ps, l.length, n);
  }

  /** Two neighbours are contiguous after a crash exactly when they were before, and the first has lost no byte. */
  lemma NeighboursAfterCrash(g: Config, m: Mgr, survivors: seq<Seg>, losses: seq<Loss>, i: nat)
    requires FixedWidth(g.c) && FilesOk(g, m) && CrashLeaves(m, survivors, losses) && i + 1 < |survivors|
    ensures var live := Reopened(g, m, survivors, losses).live;
            End(live[i]) == live[i + 1].base <==>
            End(survivors[i]) == survivors[i + 1].base && losses[i].length == |survivors[i].sys.w.bytes|
  {
    CrashKeepsSegment(g, m, survivors, losses, i);
    CrashKeepsSegment(g, m, survivors, losses, i + 1);
    RecoveredCount(g, survivors[i], losses[i]);
    assert survivors[i].base < survivors[i + 1].base;
    assert Apart(survivors[i], survivors[i + 1]);
  }

  /** Every survivor but the last kept all its bytes. */
  ghost predicate NoTailLost(survivors: seq<Seg>, losses: seq<Loss>)
    requires |losses| == |survivors|
  {
    forall i :: 0 <= i < |survivors| - 1 ==> losses[i].length == |survivors[i].sys.w.bytes|
  }

  lemma ContiguousAfterCrash(g: Config, m: Mgr, survivors: seq<Seg>, losses: seq<Loss>)
    requires FixedWidth(g.c) && FilesOk(g, m) && CrashLeaves(m, survivors, losses)
    ensures Contiguous(Reopened(g, m, survivors, losses).live) <==>
            Contiguous(survivors) && NoTailLost(survivors, losses)
  {
    var live := Reopened(g, m, survivors, losses).live;
    forall i | 0 <= i < |survivors| - 1
      ensures End(live[i]) == live[i + 1].base <==>
              End(survivors[i]) == survivors[i + 1].base && losses[i].length == |survivors[i].sys.w.bytes|
    {
      NeighboursAfterCrash(g, m, survivors, losses, i);
    }
    if Contiguous(live) {
      forall i, j | 0 <= i < j < |survivors| && j == i + 1 ensures End(survivors[i]) == survivors[j].base {
        assert End(live[i]) == live[j].base;
      }
      forall i | 0 <= i < |survivors| - 1 ensures losses[i].length == |survivors[i].sys.w.bytes| {
        assert End(live[i]) == live[i + 1].base;
      }
    }
  }

  /** After a crash, from any reachable state, the end-of-log answer means at or past the head if and only if the files
      that are left were contiguous, and every one but the last has kept all its bytes. */
  lemma EofAfterCrash(g: Config, states: seq<Mgr>, events: seq<Event>, k: nat)
    requires IsRun(g, states, events) && k < |events| && events[k].Crash?
    ensures states[k + 1].live != [] && |events[k].losses| == |events[k].survivors|
    ensures EofMeansHead(g, states[k + 1].live) <==>
            Contiguous(events[k].survivors) && NoTailLost(events[k].survivors, events[k].losses)
  {
    RunHasCore(g, states, events, k);
    RunStep(g, states, events, k);
    RunHasCore(g, states, events, k + 1);
    ContiguousAfterCrash(g, states[k], events[k].survivors, events[k].losses);
    EofMeansHeadIff(g, states[k + 1]);
  }
}
