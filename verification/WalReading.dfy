/** Reading a record by its offset: jump to the nearest checkpoint below, then walk record by record. */
module WalReading {
  import opened Options
  import opened Bytes
  import opened WalFormat
  import opened CheckpointIndex

  /** `ReadFailed` stands for the read errors that are neither the end of the log nor corruption. */
  datatype ReadResult = Data(payload: seq<byte>) | Eof | Corruption(at: int) | ReadFailed

  /** The payload of the record at byte `pos`, if its checksum is the stored one. */
  function Verified(c: Checksum, bytes: seq<byte>, pos: nat, length: nat): ReadResult
    requires pos + HeaderSize(c) <= |bytes|
  {
    var at := pos + HeaderSize(c);
    if at + length > |bytes| then ReadFailed
    else if c.compute(bytes[pos..pos + LENGTH_SIZE] + bytes[at..at + length]) != bytes[pos + LENGTH_SIZE..at]
    then Corruption(pos)
    else Data(bytes[at..at + length])
  }

  /** Walk from byte `pos`, the start of record `cur`, to record `offset`. */
  function ReadFrom(c: Checksum, bytes: seq<byte>, cur: nat, pos: int, offset: nat): ReadResult
    decreases |bytes| - pos
  {
    var hs := HeaderSize(c);
    if pos < 0 then ReadFailed
    else if pos + hs > |bytes| then Eof
    else
      var length := U32(bytes[pos..]);
      if length > MAX_RECORD then Corruption(pos)
      else if cur == offset then Verified(c, bytes, pos, length)
      else ReadFrom(c, bytes, cur + 1, pos + hs + length, offset)
  }

  /** Where a read of `offset` begins to walk. */
  function ReadStart(es: seq<Checkpoint>, offset: nat): Checkpoint {
    match Floor(es, offset)
    case None => Checkpoint(0, 0)
    case Some(f) => f
  }

  function ReadAt(c: Checksum, bytes: seq<byte>, es: seq<Checkpoint>, offset: nat): ReadResult {
    ReadFrom(c, bytes, ReadStart(es, offset).off, ReadStart(es, offset).pos, offset)
  }

  /** The checkpoint names the true start of an existing record. */
  ghost predicate Correct(c: Checksum, ps: seq<Payload>, e: Checkpoint) {
    e.off < |ps| && e.pos == Start(c, ps, e.off)
  }

  /** One turn of the walk, on a record that is there. */
  lemma WalkStep(c: Checksum, bytes: seq<byte>, ps: seq<Payload>, cur: nat, offset: nat)
    requires FixedWidth(c) && HasRecord(c, bytes, ps, cur)
    ensures ReadFrom(c, bytes, cur, Start(c, ps, cur), offset) ==
            if cur == offset then Data(ps[cur]) else ReadFrom(c, bytes, cur + 1, Start(c, ps, cur + 1), offset)
  {
    RecordVerifies(c, bytes, ps, cur);
  }

  lemma RecordVerifies(c: Checksum, bytes: seq<byte>, ps: seq<Payload>, k: nat)
    requires FixedWidth(c) && HasRecord(c, bytes, ps, k)
    ensures var at, hs := Start(c, ps, k), HeaderSize(c);
            && at + hs + |ps[k]| == Start(c, ps, k + 1)
            && U32(bytes[at..]) == |ps[k]| && Verified(c, bytes, at, |ps[k]|) == Data(ps[k])
  {
    RecordReadsBack(c, bytes, ps, k);
  }

  lemma {:induction false} WalkFindsRecord(c: Checksum, ps: seq<Payload>, cur: nat, offset: nat)
    requires FixedWidth(c) && cur <= |ps| && cur <= offset
    ensures ReadFrom(c, Frame(c, ps), cur, Start(c, ps, cur), offset) ==
            if offset < |ps| then Data(ps[offset]) else Eof
    decreases |ps| - cur
  {
    if cur == |ps| {
      assert ps[..cur] == ps;
    } else {
      FramePrefix(c, ps, cur + 1);
      WalkStep(c, Frame(c, ps), ps, cur, offset);
      if cur < offset {
        WalkFindsRecord(c, ps, cur + 1, offset);
      }
    }
  }

  /** With correct checkpoints, however few and however far behind, a read by offset is a lookup in the list of
      records: the record if it exists, the end of the log otherwise, never corruption. */
  lemma SparseReadIsLookup(c: Checksum, ps: seq<Payload>, es: seq<Checkpoint>, offset: nat)
    requires FixedWidth(c) && forall e <- es :: Correct(c, ps, e)
    ensures ReadAt(c, Frame(c, ps), es, offset) == if offset < |ps| then Data(ps[offset]) else Eof
  {
    FloorInside(es, offset);
    var start := ReadStart(es, offset);
    assert ps[..0] == [];
    assert start.pos == Start(c, ps, start.off);
    WalkFindsRecord(c, ps, start.off, offset);
  }

  // ---------- how far a read walks in a log's first session ----------

  function Stride(nth: nat): nat {
    if nth == 0 then 1 else nth
  }

  /** The checkpoints, and the records since the last, once `count` records have been noted from the first on. */
  ghost predicate EvenlySpaced(nth: nat, es: seq<Checkpoint>, n: nat, count: nat) {
    && n < Stride(nth)
    && count == n + (if es == [] then 0 else es[|es| - 1].off + 1)
    && (es != [] ==> es[0].off == Stride(nth) - 1)
    && forall i, j :: 0 <= i < j < |es| && j == i + 1 ==> es[j].off == es[i].off + Stride(nth)
  }

  lemma SpacingStep(nth: nat, es: seq<Checkpoint>, n: nat, e: Checkpoint)
    requires EvenlySpaced(nth, es, n, e.off) && n + 1 == Stride(nth)
    ensures EvenlySpaced(nth, es + [e], 0, e.off + 1)
  {
    var all := es + [e];
    forall i, j | 0 <= i < j < |all| && j == i + 1 ensures all[j].off == all[i].off + Stride(nth) {
      if j < |es| {
        assert es[j].off == es[i].off + Stride(nth);
      }
    }
  }

  /** Where evenly spaced checkpoints are. */
  lemma {:induction false} SpacingCounts(nth: nat, es: seq<Checkpoint>, n: nat, count: nat, i: nat)
    requires EvenlySpaced(nth, es, n, count) && i < |es|
    ensures es[i].off + 1 == (i + 1) * Stride(nth)
  {
    if i > 0 {
      SpacingCounts(nth, es, n, count, i - 1);
      assert es[i].off == es[i - 1].off + Stride(nth);
    }
  }

  /** The index never fills up: with four records or more to a checkpoint it is shorter than the log can be, and
      otherwise it has not. */
  predicate Roomy(nth: nat, es: seq<Checkpoint>, count: nat) {
    (nth >= 4 && 4 * count < TWO_63) || HasRoom(es)
  }

  lemma RoomWhenDue(nth: nat, es: seq<Checkpoint>, n: nat, count: nat)
    requires EvenlySpaced(nth, es, n, count) && n + 1 == Stride(nth) && nth >= 4 && 4 * (count + 1) < TWO_63
    ensures HasRoom(es)
  {
    if es != [] {
      SpacingCounts(nth, es, n, count, |es| - 1);
    }
    Multiples(|es|, Stride(nth));
  }

  lemma Multiples(k: nat, stride: nat)
    requires stride >= 4
    ensures (k + 1) * stride == k * stride + stride && (k + 1) * stride >= 4 * (k + 1)
  {
  }

  lemma NoteKeepsSpacing(nth: nat, s: Store, count: nat, pos: nat)
    requires EvenlySpaced(nth, s.es, s.n, count) && count < TWO_64 && pos < TWO_63
    requires Roomy(nth, Note(nth, s, count, pos).es, count + 1)
    ensures var s' := Note(nth, s, count, pos);
            EvenlySpaced(nth, s'.es, s'.n, count + 1)
  {
    if nth == 0 || s.n + 1 >= nth {
      if !HasRoom(s.es) {
        RoomWhenDue(nth, s.es, s.n, count);
      }
      SpacingStep(nth, s.es, s.n, Mark(count, pos));
    }
  }

  /** A read of any noted record walks over fewer than `nth` others. */
  lemma WalkIsShort(nth: nat, es: seq<Checkpoint>, n: nat, count: nat, offset: nat)
    requires EvenlySpaced(nth, es, n, count) && offset < count
    ensures ReadStart(es, offset).off <= offset < ReadStart(es, offset).off + Stride(nth)
  {
    var i := LastAtOrBelow(es, offset);
    if 0 <= i < |es| - 1 {
      assert es[i + 1].off == es[i].off + Stride(nth);
    }
  }

  /** The index Floor settles on, or -1. */
  lemma {:induction false} LastAtOrBelow(es: seq<Checkpoint>, offset: nat) returns (i: int)
    ensures -1 <= i < |es|
    ensures i >= 0 ==> es[i].off <= offset && Floor(es, offset) == Option.Some(es[i])
    ensures i < |es| - 1 ==> es[i + 1].off > offset
    ensures i == -1 ==> Floor(es, offset) == Option.None
  {
    if es == [] {
      i := -1;
    } else if es[|es| - 1].off <= offset {
      i := |es| - 1;
    } else {
      i := LastAtOrBelow(es[..|es| - 1], offset);
    }
  }
}
