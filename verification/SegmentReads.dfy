/** What a read of the segmented log returns, in every state its invariant allows. */
module SegmentReads {
  import opened WalFormat
  import opened WalReading
  import opened Segments
  import opened SegmentInvariant
  import opened SegmentSteps

  lemma {:induction false} RouteIndexIsLast(live: seq<Seg>, offset: nat)
    requires Ordered(live)
    ensures var i := RouteIndex(live, offset);
            && (i >= 0 ==> live[i].base <= offset)
            && (forall j :: i < j < |live| ==> live[j].base > offset)
  {
    if live != [] && live[|live| - 1].base > offset {
      var init := live[..|live| - 1];
      RouteIndexIsLast(init, offset);
      forall j | RouteIndex(live, offset) < j < |live| ensures live[j].base > offset {
        if j < |init| {
          assert live[j] == init[j];
        }
      }
    }
  }

  /** Where the bases stop being at or below the offset determines the route. */
  lemma RouteIndexIs(live: seq<Seg>, offset: nat, n: nat)
    requires Ordered(live) && n <= |live|
    requires forall i :: 0 <= i < n ==> live[i].base <= offset
    requires forall i :: n <= i < |live| ==> live[i].base > offset
    ensures RouteIndex(live, offset) == n - 1
  {
    RouteIndexIsLast(live, offset);
    var i := RouteIndex(live, offset);
    assert i >= 0 ==> live[i].base <= offset;
    assert n > 0 ==> live[n - 1].base <= offset;
  }

  /** The segment an offset falls to, or to the gap behind it. */
  lemma OwnedOrGap(live: seq<Seg>, offset: nat) returns (i: int)
    requires live != [] && Ordered(live) && live[0].base <= offset
    ensures 0 <= i < |live| && live[i].base <= offset && (i + 1 < |live| ==> offset < live[i + 1].base)
  {
    i := RouteIndex(live, offset);
    RouteIndexIsLast(live, offset);
  }

  lemma SegmentReadIsLookup(g: Config, x: Seg, offset: nat)
    requires FixedWidth(g.c) && SegOk(g, x) && x.base <= offset
    ensures ReadIn(g, x, offset) == if offset < x.base + |x.sys.ps| then Data(x.sys.ps[offset - x.base]) else Eof
  {
    SparseReadIsLookup(g.c, x.sys.ps, x.sys.w.store.es, offset - x.base);
  }

  /** Routing finds the live segment that contains the offset, wherever it is in the list. */
  lemma RouteFindsOwner(g: Config, m: Mgr, k: nat, offset: nat)
    requires FilesOk(g, m) && k < |m.live| && Contains(m.live[k], offset)
    ensures Route(m.live, offset) == Owner(k)
  {
    var x, i := m.live[k], RouteIndex(m.live, offset);
    RouteIndexIsLast(m.live, offset);
    assert k <= i;
    assert IsFile(m, x) && IsFile(m, m.live[i]) && Apart(x, m.live[i]);
  }

  lemma LiveReadIsLookup(g: Config, m: Mgr, x: Seg, offset: nat)
    requires FixedWidth(g.c) && FilesOk(g, m) && x in m.live && Contains(x, offset)
    ensures Count(x) == |x.sys.ps|
    ensures ManagerRead(g, m.live, offset) == Answer(Data(x.sys.ps[offset - x.base]))
  {
    var k :| 0 <= k < |m.live| && m.live[k] == x;
    RouteFindsOwner(g, m, k, offset);
    assert IsFile(m, x) && SegOk(g, x);
    SegmentReadIsLookup(g, x, offset);
  }

  lemma BelowFirst(live: seq<Seg>, offset: nat)
    requires live != [] && Ordered(live) && offset < live[0].base
    ensures Route(live, offset) == TooOld(live[0].base)
  {
    RouteIndexIsLast(live, offset);
  }

  lemma UnownedRead(g: Config, live: seq<Seg>, offset: nat)
    requires live != [] && forall x <- live :: !Contains(x, offset)
    ensures ManagerRead(g, live, offset) ==
            if offset < live[0].base then OutOfRetention(offset, live[0].base) else Answer(Eof)
  {
  }

  /** Nobody is routed to a segment below the first live one. */
  lemma RoutesToLive(m: Mgr, offset: nat)
    requires InOrder(m) && Route(m.live, offset).Owner?
    ensures m.live[0].base <= m.live[Route(m.live, offset).index].base
  {
  }

  /** In every reachable state, crashes included: if a live segment contains the offset, the read returns the
      record it holds there; otherwise the read is refused as out of retention below the earliest offset, and
      finds the end of the log elsewhere. It never reports corruption. */
  lemma ReadsAcrossCrashes(g: Config, states: seq<Mgr>, events: seq<Event>, k: nat, offset: nat)
    requires IsRun(g, states, events) && k < |states|
    ensures states[k].live != []
    ensures forall x <- states[k].live :: Contains(x, offset) ==>
              && x.base <= offset < x.base + |x.sys.ps|
              && ManagerRead(g, states[k].live, offset) == Answer(Data(x.sys.ps[offset - x.base]))
    ensures (forall x <- states[k].live :: !Contains(x, offset)) ==>
              ManagerRead(g, states[k].live, offset) ==
              if offset < states[k].live[0].base then OutOfRetention(offset, states[k].live[0].base) else Answer(Eof)
  {
    RunHasCore(g, states, events, k);
    forall x <- states[k].live | Contains(x, offset)
      ensures offset < x.base + |x.sys.ps|
      ensures ManagerRead(g, states[k].live, offset) == Answer(Data(x.sys.ps[offset - x.base]))
    {
      LiveReadIsLookup(g, states[k], x, offset);
    }
  }

  /** In every reachable state, crashes included, live segments ascend and cover ranges that do not overlap. */
  lemma SegmentsNeverOverlap(g: Config, states: seq<Mgr>, events: seq<Event>, k: nat, i: nat, j: nat)
    requires IsRun(g, states, events) && k < |states| && i < j < |states[k].live|
    ensures states[k].live[i].base < states[k].live[j].base && End(states[k].live[i]) <= states[k].live[j].base
  {
    var m := states[k];
    RunHasCore(g, states, events, k);
    assert IsFile(m, m.live[i]) && IsFile(m, m.live[j]) && Apart(m.live[i], m.live[j]);
  }
}
