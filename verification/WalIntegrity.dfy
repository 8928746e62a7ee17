/** What recovery checks and what it does not: it follows length fields and compares no checksum; reads do. */
module WalIntegrity {
  import opened Bytes
  import opened WalFormat
  import opened WalRecovery
  import opened CheckpointIndex
  import opened WalReading
  import opened WalLog

  /** From byte `pos` on, both files have the same length field wherever the scan of the first reads one. */
  predicate SameLengths(hs: nat, a: seq<byte>, b: seq<byte>, pos: nat)
    requires LENGTH_SIZE <= hs && pos <= |a| == |b|
    decreases |a| - pos
  {
    pos + hs <= |a| ==>
      var length := U32(a[pos..]);
      && U32(b[pos..]) == length
      && (length <= MAX_RECORD && pos + hs + length <= |a| ==> SameLengths(hs, a, b, pos + hs + length))
  }

  lemma {:induction false} ScanReadsLengths(hs: nat, a: seq<byte>, b: seq<byte>, pos: nat, off: nat)
    requires LENGTH_SIZE <= hs && pos <= |a| == |b| && SameLengths(hs, a, b, pos)
    ensures Scan(hs, b, pos, off) == Scan(hs, a, pos, off)
    decreases |a| - pos
  {
    if pos + hs <= |a| {
      var length := U32(a[pos..]);
      if length <= MAX_RECORD && pos + hs + length <= |a| {
        ScanReadsLengths(hs, a, b, pos + hs + length, off + 1);
      }
    }
  }

  /** Opening depends on the length fields alone: two files of one size that agree on those the scan reads open alike,
      whatever payloads and checksums they hold. */
  lemma OpenReadsLengths(c: Checksum, a: seq<byte>, b: seq<byte>, durable: nat, index: seq<byte>)
    requires |a| == |b|
    requires var (_, pos) := ScanStart(c, a, Load(index));
             0 <= pos <= |a| ==> SameLengths(HeaderSize(c), a, b, pos)
    ensures Open(c, b, durable, index) ==
            match Open(c, a, durable, index)
            case OpenFailed => OpenFailed
            case Opened(w) => Opened(w.(bytes := if w.size <= |b| then b[..w.size] else b))
  {
    var (off, pos) := ScanStart(c, a, Load(index));
    if 0 <= pos <= |a| {
      ScanReadsLengths(HeaderSize(c), a, b, pos, off);
    }
  }

  /** The scan from `pos` comes to byte `q`, over whole records of admissible length. */
  predicate Walks(hs: nat, bytes: seq<byte>, pos: nat, q: nat)
    requires LENGTH_SIZE <= hs && pos <= |bytes|
    decreases |bytes| - pos
  {
    || q == pos
    || (pos + hs <= |bytes| &&
        var length := U32(bytes[pos..]);
        length <= MAX_RECORD && pos + hs + length <= |bytes| && Walks(hs, bytes, pos + hs + length, q))
  }

  /** At byte `q` there is a header whose length field no writer produces. */
  predicate BadLength(hs: nat, bytes: seq<byte>, q: nat)
    requires LENGTH_SIZE <= hs
  {
    q + hs <= |bytes| && U32(bytes[q..]) > MAX_RECORD
  }

  lemma {:induction false} ScanFailsIff(hs: nat, bytes: seq<byte>, pos: nat, off: nat)
    requires LENGTH_SIZE <= hs && pos <= |bytes|
    ensures Scan(hs, bytes, pos, off).Corrupt? <==> exists q: nat :: Walks(hs, bytes, pos, q) && BadLength(hs, bytes, q)
    decreases |bytes| - pos
  {
    if pos + hs <= |bytes| {
      var next := pos + hs + U32(bytes[pos..]);
      if BadLength(hs, bytes, pos) {
        assert Walks(hs, bytes, pos, pos);
      } else if next <= |bytes| {
        ScanFailsIff(hs, bytes, next, off + 1);
        if Scan(hs, bytes, next, off + 1).Corrupt? {
          var q: nat :| Walks(hs, bytes, next, q) && BadLength(hs, bytes, q);
          assert Walks(hs, bytes, pos, q);
        }
      }
    }
  }

  /** On arbitrary file and index bytes, opening fails exactly when the trusted checkpoint lies outside the file, or the
      scan comes to a length no writer produces. */
  lemma OpenFailsIff(c: Checksum, bytes: seq<byte>, durable: nat, index: seq<byte>)
    ensures var (_, pos) := ScanStart(c, bytes, Load(index));
            Open(c, bytes, durable, index) == OpenFailed <==>
            || pos < 0 || pos > |bytes|
            || exists q: nat :: Walks(HeaderSize(c), bytes, pos, q) && BadLength(HeaderSize(c), bytes, q)
  {
    var (off, pos) := ScanStart(c, bytes, Load(index));
    if 0 <= pos <= |bytes| {
      ScanFailsIff(HeaderSize(c), bytes, pos, off);
    }
  }

  function OneRecord(p: Payload, sum: seq<byte>): seq<byte> {
    PutU32(|p|) + sum + p
  }

  lemma OneRecordParts(c: Checksum, p: Payload, sum: seq<byte>)
    requires |sum| == c.size
    ensures var bytes, hs := OneRecord(p, sum), HeaderSize(c);
            && |bytes| == hs + |p| && U32(bytes) == |p| && bytes[0..LENGTH_SIZE] == PutU32(|p|)
            && bytes[LENGTH_SIZE..hs] == sum && bytes[hs..hs + |p|] == p
  {
    var bytes := OneRecord(p, sum);
    assert bytes == PutU32(|p|) + (sum + p);
    U32RoundTrip(|p|, sum + p);
  }

  /** A record with any wrong checksum is opened like a sound one; reading it reports the corruption. */
  lemma WrongChecksumOpens(c: Checksum, p: Payload, sum: seq<byte>, durable: nat)
    requires |sum| == c.size && sum != c.compute(PutU32(|p|) + p)
    ensures var bytes := OneRecord(p, sum);
            && Open(c, bytes, durable, []).Opened?
            && Open(c, bytes, durable, []).wal.bytes == bytes && Open(c, bytes, durable, []).wal.nextOffset == 1
            && ReadAt(c, bytes, [], 0) == Corruption(0)
  {
    var bytes, hs := OneRecord(p, sum), HeaderSize(c);
    OneRecordParts(c, p, sum);
    assert bytes[0..] == bytes;
    assert Load([]) == [];
    assert Scan(hs, bytes, 0, 0) == Scan(hs, bytes, |bytes|, 1) == Head(1, |bytes|);
    assert Verified(c, bytes, 0, |p|) == Corruption(0);
  }

  // ---------- what a read hands out, on arbitrary bytes ----------

  /** Following `n` length fields from byte `pos` leads to byte `q`. */
  predicate Hops(hs: nat, bytes: seq<byte>, pos: int, n: nat, q: int)
    requires LENGTH_SIZE <= hs
    decreases n
  {
    if n == 0 then q == pos
    else
      && 0 <= pos && pos + hs <= |bytes| && U32(bytes[pos..]) <= MAX_RECORD
      && Hops(hs, bytes, pos + hs + U32(bytes[pos..]), n - 1, q)
  }

  /** Byte `q` starts a record of this payload with this checksum. */
  predicate HoldsAt(c: Checksum, bytes: seq<byte>, q: int, p: seq<byte>, sum: seq<byte>) {
    && |sum| == c.size && |p| <= MAX_RECORD
    && 0 <= q && q + HeaderSize(c) + |p| <= |bytes|
    && bytes[q..q + HeaderSize(c) + |p|] == OneRecord(p, sum)
  }

  function Sum(c: Checksum, p: Payload): seq<byte> {
    c.compute(PutU32(|p|) + p)
  }

  /** What verification makes of a record, whatever bytes surround it. */
  lemma VerifiedIff(c: Checksum, bytes: seq<byte>, q: nat, p: Payload, sum: seq<byte>)
    requires HoldsAt(c, bytes, q, p, sum)
    ensures U32(bytes[q..]) == |p|
    ensures Verified(c, bytes, q, |p|) == if sum == Sum(c, p) then Data(p) else Corruption(q)
  {
    var hs, end := HeaderSize(c), q + HeaderSize(c) + |p|;
    OneRecordParts(c, p, sum);
    var rec := bytes[q..end];
    assert bytes[q..] == rec + bytes[end..];
    assert U32(bytes[q..]) == U32(rec);
    SliceOfSlice(bytes, q, end, 0, LENGTH_SIZE);
    SliceOfSlice(bytes, q, end, LENGTH_SIZE, hs);
    SliceOfSlice(bytes, q, end, hs, hs + |p|);
  }

  /** Any whole record is one with the payload and the checksum that are there. */
  lemma RecordThere(c: Checksum, bytes: seq<byte>, q: nat) returns (p: Payload, sum: seq<byte>)
    requires q + HeaderSize(c) <= |bytes| && U32(bytes[q..]) <= MAX_RECORD
    requires q + HeaderSize(c) + U32(bytes[q..]) <= |bytes|
    ensures HoldsAt(c, bytes, q, p, sum) && |p| == U32(bytes[q..])
  {
    var at, length := q + HeaderSize(c), U32(bytes[q..]);
    p, sum := bytes[at..at + length], bytes[q + LENGTH_SIZE..at];
    PutU32RoundTrip(bytes[q..]);
    assert bytes[q..][..4] == bytes[q..q + LENGTH_SIZE];
    assert bytes[q..at + length] == bytes[q..q + LENGTH_SIZE] + sum + p;
  }

  /** Byte `q` starts a whole record of this payload with its own checksum. */
  predicate SoundAt(c: Checksum, bytes: seq<byte>, q: int, p: seq<byte>) {
    |p| <= MAX_RECORD && HoldsAt(c, bytes, q, p, Sum(c, p))
  }

  /** Byte `q` starts a whole record with another checksum than its own. */
  ghost predicate DamagedAt(c: Checksum, bytes: seq<byte>, q: int) {
    exists p: Payload, sum: seq<byte> :: HoldsAt(c, bytes, q, p, sum) && sum != Sum(c, p)
  }

  /** A record starts at one byte and has one payload and one checksum. */
  lemma OneRecordThere(c: Checksum, bytes: seq<byte>, q: nat, p: Payload, sum: seq<byte>, p': Payload, sum': seq<byte>)
    requires HoldsAt(c, bytes, q, p, sum) && HoldsAt(c, bytes, q, p', sum')
    ensures p == p' && sum == sum'
  {
    VerifiedIff(c, bytes, q, p, sum);
    VerifiedIff(c, bytes, q, p', sum');
    OneRecordParts(c, p, sum);
    OneRecordParts(c, p', sum');
  }

  /** The target of a read, judged: the payload exactly if the record is sound, corruption exactly if its length is one
      no writer produces or its checksum is not its own. */
  lemma TargetIff(c: Checksum, bytes: seq<byte>, cur: nat, pos: int, p: seq<byte>, at: int)
    ensures ReadFrom(c, bytes, cur, pos, cur) == Data(p) <==> SoundAt(c, bytes, pos, p)
    ensures ReadFrom(c, bytes, cur, pos, cur) == Corruption(at) <==>
            0 <= pos == at && (BadLength(HeaderSize(c), bytes, at) || DamagedAt(c, bytes, at))
  {
    if 0 <= pos && pos + HeaderSize(c) <= |bytes| {
      if U32(bytes[pos..]) <= MAX_RECORD && pos + HeaderSize(c) + U32(bytes[pos..]) <= |bytes| {
        var p', sum' := RecordThere(c, bytes, pos);
        VerifiedIff(c, bytes, pos, p', sum');
        SoundOrDamaged(c, bytes, pos, p', sum', p);
      } else {
        NoRecordThere(c, bytes, pos);
      }
    }
  }

  lemma SoundOrDamaged(c: Checksum, bytes: seq<byte>, q: nat, p: Payload, sum: seq<byte>, p': seq<byte>)
    requires HoldsAt(c, bytes, q, p, sum)
    ensures SoundAt(c, bytes, q, p') <==> p' == p && sum == Sum(c, p)
    ensures DamagedAt(c, bytes, q) <==> sum != Sum(c, p)
  {
    if SoundAt(c, bytes, q, p') {
      OneRecordThere(c, bytes, q, p, sum, p', Sum(c, p'));
    }
    if DamagedAt(c, bytes, q) {
      var r: Payload, sum' :| HoldsAt(c, bytes, q, r, sum') && sum' != Sum(c, r);
      OneRecordThere(c, bytes, q, p, sum, r, sum');
    }
  }

  lemma NoRecordThere(c: Checksum, bytes: seq<byte>, q: nat)
    requires q + HeaderSize(c) <= |bytes|
    requires U32(bytes[q..]) > MAX_RECORD || q + HeaderSize(c) + U32(bytes[q..]) > |bytes|
    ensures !DamagedAt(c, bytes, q) && forall p :: !SoundAt(c, bytes, q, p)
  {
    forall p: Payload, sum | HoldsAt(c, bytes, q, p, sum) ensures false {
      VerifiedIff(c, bytes, q, p, sum);
    }
  }

  /** The read comes, by length fields, to a header whose length no writer produces. */
  ghost predicate Stumbles(c: Checksum, bytes: seq<byte>, pos: int, n: nat, at: int) {
    0 <= at && BadLength(HeaderSize(c), bytes, at) && exists i :: 0 <= i <= n && Hops(HeaderSize(c), bytes, pos, i, at)
  }

  lemma {:induction false} WalkDataIff(c: Checksum, bytes: seq<byte>, cur: nat, pos: int, offset: nat, p: seq<byte>)
    requires cur <= offset
    ensures ReadFrom(c, bytes, cur, pos, offset) == Data(p) <==>
            exists q :: Hops(HeaderSize(c), bytes, pos, offset - cur, q) && SoundAt(c, bytes, q, p)
    decreases offset - cur
  {
    var hs := HeaderSize(c);
    if cur == offset {
      TargetIff(c, bytes, cur, pos, p, pos);
      assert Hops(hs, bytes, pos, 0, pos);
    } else if 0 <= pos && pos + hs <= |bytes| && U32(bytes[pos..]) <= MAX_RECORD {
      var next, n, m := pos + hs + U32(bytes[pos..]), offset - cur, offset - (cur + 1);
      WalkDataIff(c, bytes, cur + 1, next, offset, p);
      assert forall q :: Hops(hs, bytes, pos, n, q) <==> Hops(hs, bytes, next, m, q);
    }
  }

  /** What a read hands out, on arbitrary file bytes and any index: payload `p` exactly when the length fields, from the
      checkpoint on, lead to a byte where the length of `p`, the checksum of that length and `p`, and `p` are. */
  lemma ReadDataIff(c: Checksum, bytes: seq<byte>, es: seq<Checkpoint>, offset: nat, p: seq<byte>)
    ensures ReadStart(es, offset).off <= offset
    ensures ReadAt(c, bytes, es, offset) == Data(p) <==>
            exists q :: Hops(HeaderSize(c), bytes, ReadStart(es, offset).pos, offset - ReadStart(es, offset).off, q)
                        && SoundAt(c, bytes, q, p)
  {
    FloorInside(es, offset);
    WalkDataIff(c, bytes, ReadStart(es, offset).off, ReadStart(es, offset).pos, offset, p);
  }

  lemma {:induction false} WalkCorruptionIff(c: Checksum, bytes: seq<byte>, cur: nat, pos: int, offset: nat, at: int)
    requires cur <= offset
    ensures ReadFrom(c, bytes, cur, pos, offset) == Corruption(at) <==>
            || Stumbles(c, bytes, pos, offset - cur, at)
            || (Hops(HeaderSize(c), bytes, pos, offset - cur, at) && DamagedAt(c, bytes, at))
    decreases offset - cur
  {
    var hs, n := HeaderSize(c), offset - cur;
    if cur == offset {
      TargetIff(c, bytes, cur, pos, [], at);
      assert Hops(hs, bytes, pos, 0, at) <==> at == pos;
    } else if 0 <= pos && pos + hs <= |bytes| && U32(bytes[pos..]) <= MAX_RECORD {
      WalkCorruptionIff(c, bytes, cur + 1, pos + hs + U32(bytes[pos..]), offset, at);
      StumblesLater(c, bytes, pos, n, at);
    } else {
      assert Hops(hs, bytes, pos, 0, at) <==> at == pos;
      assert forall i :: 0 < i <= n ==> !Hops(hs, bytes, pos, i, at);
    }
  }

  lemma StumblesLater(c: Checksum, bytes: seq<byte>, pos: nat, n: nat, at: int)
    requires 0 < n && pos + HeaderSize(c) <= |bytes| && U32(bytes[pos..]) <= MAX_RECORD
    ensures Stumbles(c, bytes, pos, n, at) <==> Stumbles(c, bytes, pos + HeaderSize(c) + U32(bytes[pos..]), n - 1, at)
  {
    var hs := HeaderSize(c);
    var next := pos + hs + U32(bytes[pos..]);
    if Stumbles(c, bytes, pos, n, at) {
      var i :| 0 <= i <= n && Hops(hs, bytes, pos, i, at);
      assert i > 0;
      assert Hops(hs, bytes, next, i - 1, at);
    }
    if Stumbles(c, bytes, next, n - 1, at) {
      var i :| 0 <= i <= n - 1 && Hops(hs, bytes, next, i, at);
      assert Hops(hs, bytes, pos, i + 1, at);
    }
  }

  /** When a read reports corruption, on arbitrary file bytes and any index, and where: exactly when the length fields
      lead to a length no writer produces, or to a target whose checksum is not that of its length and payload. */
  lemma ReadCorruptionIff(c: Checksum, bytes: seq<byte>, es: seq<Checkpoint>, offset: nat, at: int)
    ensures ReadStart(es, offset).off <= offset
    ensures ReadAt(c, bytes, es, offset) == Corruption(at) <==>
            var start := ReadStart(es, offset);
            || Stumbles(c, bytes, start.pos, offset - start.off, at)
            || (Hops(HeaderSize(c), bytes, start.pos, offset - start.off, at) && DamagedAt(c, bytes, at))
  {
    FloorInside(es, offset);
    WalkCorruptionIff(c, bytes, ReadStart(es, offset).off, ReadStart(es, offset).pos, offset, at);
  }

  /** The read comes, by length fields, to a byte behind which no header fits. */
  ghost predicate RunsOut(c: Checksum, bytes: seq<byte>, pos: int, n: nat) {
    exists i, q :: 0 <= i <= n && Hops(HeaderSize(c), bytes, pos, i, q) && EndsAt(HeaderSize(c), bytes, q)
  }

  predicate EndsAt(hs: nat, bytes: seq<byte>, q: int) {
    0 <= q && q + hs > |bytes|
  }

  lemma RunsOutLater(c: Checksum, bytes: seq<byte>, pos: nat, n: nat)
    requires 0 < n && pos + HeaderSize(c) <= |bytes| && U32(bytes[pos..]) <= MAX_RECORD
    ensures RunsOut(c, bytes, pos, n) <==> RunsOut(c, bytes, pos + HeaderSize(c) + U32(bytes[pos..]), n - 1)
  {
    var hs := HeaderSize(c);
    var next := pos + hs + U32(bytes[pos..]);
    if RunsOut(c, bytes, pos, n) {
      var i, q :| 0 <= i <= n && Hops(hs, bytes, pos, i, q) && EndsAt(hs, bytes, q);
      assert i > 0;
      assert Hops(hs, bytes, next, i - 1, q);
    }
    if RunsOut(c, bytes, next, n - 1) {
      var i, q :| 0 <= i <= n - 1 && Hops(hs, bytes, next, i, q) && EndsAt(hs, bytes, q);
      assert Hops(hs, bytes, pos, i + 1, q);
    }
  }

  lemma {:induction false} WalkEofIff(c: Checksum, bytes: seq<byte>, cur: nat, pos: int, offset: nat)
    requires cur <= offset
    ensures ReadFrom(c, bytes, cur, pos, offset) == Eof <==> RunsOut(c, bytes, pos, offset - cur)
    decreases offset - cur
  {
    var hs, n := HeaderSize(c), offset - cur;
    assert Hops(hs, bytes, pos, 0, pos);
    if cur < offset && 0 <= pos && pos + hs <= |bytes| && U32(bytes[pos..]) <= MAX_RECORD {
      WalkEofIff(c, bytes, cur + 1, pos + hs + U32(bytes[pos..]), offset);
      RunsOutLater(c, bytes, pos, n);
    } else if !EndsAt(hs, bytes, pos) {
      assert forall i, q :: 0 < i <= n ==> !Hops(hs, bytes, pos, i, q);
    }
  }

  /** When a read reports the end of the log, on arbitrary file bytes and any index: exactly when the length fields lead
      to a byte behind which no header fits, the target or one before it. */
  lemma ReadEofIff(c: Checksum, bytes: seq<byte>, es: seq<Checkpoint>, offset: nat)
    ensures ReadStart(es, offset).off <= offset
    ensures ReadAt(c, bytes, es, offset) == Eof <==>
            RunsOut(c, bytes, ReadStart(es, offset).pos, offset - ReadStart(es, offset).off)
  {
    FloorInside(es, offset);
    WalkEofIff(c, bytes, ReadStart(es, offset).off, ReadStart(es, offset).pos, offset);
  }

  // ---------- what the scan finds, on arbitrary bytes ----------

  /** No whole record starts at byte `q`: a header, or what its length asks for, is missing. */
  predicate Torn(hs: nat, bytes: seq<byte>, q: nat)
    requires LENGTH_SIZE <= hs
  {
    q + hs > |bytes| || (U32(bytes[q..]) <= MAX_RECORD && q + hs + U32(bytes[q..]) > |bytes|)
  }

  /** The scan reports `n` records in `size` bytes exactly when that many length fields lead there and no whole record
      follows. */
  lemma {:induction false} ScanHeadIff(hs: nat, bytes: seq<byte>, pos: nat, off: nat, n: nat, size: nat)
    requires LENGTH_SIZE <= hs && pos <= |bytes|
    ensures Scan(hs, bytes, pos, off) == Head(n, size) <==>
            off <= n && size <= |bytes| && Hops(hs, bytes, pos, n - off, size) && Torn(hs, bytes, size)
    decreases |bytes| - pos
  {
    if pos + hs <= |bytes| && U32(bytes[pos..]) <= MAX_RECORD && pos + hs + U32(bytes[pos..]) <= |bytes| {
      ScanHeadIff(hs, bytes, pos + hs + U32(bytes[pos..]), off + 1, n, size);
    } else if n > off + 1 {
      assert !Hops(hs, bytes, pos, n - off, size);
    }
  }

  // ---------- damage to one record ----------

  lemma Associative(x: seq<byte>, y: seq<byte>, z: seq<byte>)
    ensures x + y + z == x + (y + z)
  {
  }

  lemma {:induction false} FrameConcat(c: Checksum, a: seq<Payload>, b: seq<Payload>)
    ensures Frame(c, a + b) == Frame(c, a) + Frame(c, b)
  {
    if b == [] {
      assert a + b == a;
    } else {
      var init, last := b[..|b| - 1], b[|b| - 1];
      FrameConcat(c, a, init);
      assert Frame(c, a + b) == Frame(c, a + init) + Record(c, last) by {
        assert (a + b)[..|a + b| - 1] == a + init && (a + b)[|a + b| - 1] == last;
      }
      Associative(Frame(c, a), Frame(c, init), Record(c, last));
    }
  }

  /** The log of these records with payload and checksum of record `k` replaced. */
  function Damaged(c: Checksum, ps: seq<Payload>, k: nat, p: Payload, sum: seq<byte>): seq<byte>
    requires k < |ps|
  {
    Frame(c, ps[..k]) + OneRecord(p, sum) + Frame(c, ps[k + 1..])
  }

  lemma MiddleReplaced(a: seq<byte>, r: seq<byte>, r': seq<byte>, t: seq<byte>)
    requires |r| == |r'|
    ensures var f, d := a + r + t, a + r' + t;
            && |d| == |f| && d[..|a|] == f[..|a|] && d[|a| + |r|..] == f[|a| + |r|..]
            && d[|a|..|a| + |r|] == r'
  {
  }

  /** Outside record `k` the damaged log is the log. */
  lemma DamageSpares(c: Checksum, ps: seq<Payload>, k: nat, p: Payload, sum: seq<byte>)
    requires FixedWidth(c) && k < |ps| && |p| == |ps[k]| && |sum| == c.size
    ensures var f, d := Frame(c, ps), Damaged(c, ps, k, p, sum);
            && |d| == |f| && Start(c, ps, k) <= Start(c, ps, k + 1) <= |f|
            && d[..Start(c, ps, k)] == f[..Start(c, ps, k)] && d[Start(c, ps, k + 1)..] == f[Start(c, ps, k + 1)..]
            && d[Start(c, ps, k)..Start(c, ps, k + 1)] == OneRecord(p, sum)
  {
    StartStep(c, ps, k);
    FrameConcat(c, ps[..k + 1], ps[k + 1..]);
    assert ps == ps[..k + 1] + ps[k + 1..];
    MiddleReplaced(Frame(c, ps[..k]), Record(c, ps[k]), OneRecord(p, sum), Frame(c, ps[k + 1..]));
  }

  lemma SparedSlice(f: seq<byte>, d: seq<byte>, lo: nat, hi: nat, at: nat, end: nat)
    requires |d| == |f| && lo <= hi <= |f| && d[..lo] == f[..lo] && d[hi..] == f[hi..]
    requires at <= end <= |f| && (end <= lo || hi <= at)
    ensures d[at..end] == f[at..end]
  {
    forall x | at <= x < end ensures d[x] == f[x] {
      if x < lo {
        assert d[..lo][x] == f[..lo][x];
      } else {
        assert d[hi..][x - hi] == f[hi..][x - hi];
      }
    }
  }

  /** Every record but `k` is as it was. */
  lemma SparedRecord(c: Checksum, ps: seq<Payload>, k: nat, d: seq<byte>, j: nat)
    requires FixedWidth(c) && k < |ps| && j < |ps| && j != k
    requires var f := Frame(c, ps);
             && |d| == |f| && Start(c, ps, k) <= Start(c, ps, k + 1) <= |f|
             && d[..Start(c, ps, k)] == f[..Start(c, ps, k)] && d[Start(c, ps, k + 1)..] == f[Start(c, ps, k + 1)..]
    ensures HoldsAt(c, d, Start(c, ps, j), ps[j], Sum(c, ps[j]))
  {
    var f := Frame(c, ps);
    FramePrefix(c, ps, j + 1);
    RecordBytes(c, f, ps, j);
    if j < k {
      StartMonotone(c, ps, j + 1, k);
    } else {
      StartMonotone(c, ps, k + 1, j);
    }
    SparedSlice(f, d, Start(c, ps, k), Start(c, ps, k + 1), Start(c, ps, j), Start(c, ps, j + 1));
  }

  /** One turn of a read, on any record that is there. */
  lemma HopOver(c: Checksum, bytes: seq<byte>, q: nat, next: nat, p: Payload, sum: seq<byte>, cur: nat, offset: nat)
    requires HoldsAt(c, bytes, q, p, sum) && next == q + HeaderSize(c) + |p|
    ensures ReadFrom(c, bytes, cur, q, offset) ==
            if cur != offset then ReadFrom(c, bytes, cur + 1, next, offset)
            else if sum == Sum(c, p) then Data(p) else Corruption(q)
  {
    VerifiedIff(c, bytes, q, p, sum);
  }

  /** What a read of record `offset` of the damaged log gives. */
  function Judged(c: Checksum, ps: seq<Payload>, k: nat, p: Payload, sum: seq<byte>, offset: nat): ReadResult
    requires k < |ps|
  {
    if offset >= |ps| then Eof
    else if offset != k then Data(ps[offset])
    else if sum == Sum(c, p) then Data(p)
    else Corruption(Start(c, ps, k))
  }

  /** Record `j` of the damaged log is where record `j` of the log was. */
  predicate InPlace(c: Checksum, d: seq<byte>, ps: seq<Payload>, k: nat, p: Payload, sum: seq<byte>, j: nat)
    requires j < |ps|
  {
    if j == k then HoldsAt(c, d, Start(c, ps, j), p, sum) else HoldsAt(c, d, Start(c, ps, j), ps[j], Sum(c, ps[j]))
  }

  lemma InPlaceStep(c: Checksum, d: seq<byte>, ps: seq<Payload>, k: nat, p: Payload, sum: seq<byte>, cur: nat,
                    offset: nat)
    requires FixedWidth(c) && k < |ps| && |p| == |ps[k]| && cur < |ps| && InPlace(c, d, ps, k, p, sum, cur)
    ensures ReadFrom(c, d, cur, Start(c, ps, cur), offset) ==
            if cur == offset then Judged(c, ps, k, p, sum, offset)
            else ReadFrom(c, d, cur + 1, Start(c, ps, cur + 1), offset)
  {
    StartStep(c, ps, cur);
    if cur == k {
      HopOver(c, d, Start(c, ps, cur), Start(c, ps, cur + 1), p, sum, cur, offset);
    } else {
      HopOver(c, d, Start(c, ps, cur), Start(c, ps, cur + 1), ps[cur], Sum(c, ps[cur]), cur, offset);
    }
  }

  lemma {:induction false} DamagedWalk(c: Checksum, d: seq<byte>, ps: seq<Payload>, k: nat, p: Payload, sum: seq<byte>,
                                       cur: nat, offset: nat)
    requires FixedWidth(c) && k < |ps| && |p| == |ps[k]| && cur <= |ps| && cur <= offset
    requires |d| == Start(c, ps, |ps|)
    requires forall j {:trigger InPlace(c, d, ps, k, p, sum, j)} :: 0 <= j < |ps| ==> InPlace(c, d, ps, k, p, sum, j)
    ensures ReadFrom(c, d, cur, Start(c, ps, cur), offset) == Judged(c, ps, k, p, sum, offset)
    decreases |ps| - cur
  {
    if cur < |ps| {
      assert InPlace(c, d, ps, k, p, sum, cur);
      InPlaceStep(c, d, ps, k, p, sum, cur, offset);
      if cur < offset {
        DamagedWalk(c, d, ps, k, p, sum, cur + 1, offset);
      }
    }
  }

  lemma DamagedIsInPlace(c: Checksum, ps: seq<Payload>, k: nat, p: Payload, sum: seq<byte>)
    requires FixedWidth(c) && k < |ps| && |p| == |ps[k]| && |sum| == c.size
    ensures var d := Damaged(c, ps, k, p, sum);
            && |d| == Start(c, ps, |ps|)
            && forall j {:trigger InPlace(c, d, ps, k, p, sum, j)} :: 0 <= j < |ps| ==> InPlace(c, d, ps, k, p, sum, j)
  {
    DamageSpares(c, ps, k, p, sum);
    StartStep(c, ps, k);
    assert ps[..|ps|] == ps;
    var d := Damaged(c, ps, k, p, sum);
    forall j | 0 <= j < |ps| ensures InPlace(c, d, ps, k, p, sum, j) {
      if j != k {
        SparedRecord(c, ps, k, d, j);
      }
    }
  }

  /** Damage to one record, anywhere in the log, that leaves its length alone: with any correct checkpoints a read of it
      reports corruption where the record starts, unless the new checksum is right for the new payload, and every other
      read gives what it gave before. */
  lemma DamageIsCaught(c: Checksum, ps: seq<Payload>, k: nat, p: Payload, sum: seq<byte>, es: seq<Checkpoint>, offset: nat)
    requires FixedWidth(c) && k < |ps| && |p| == |ps[k]| && |sum| == c.size
    requires forall e <- es :: Correct(c, ps, e)
    ensures ReadAt(c, Damaged(c, ps, k, p, sum), es, offset) ==
            if offset != k then ReadAt(c, Frame(c, ps), es, offset)
            else if sum == Sum(c, p) then Data(p)
            else Corruption(Start(c, ps, k))
  {
    FloorInside(es, offset);
    var start := ReadStart(es, offset);
    assert ps[..0] == [];
    assert start.pos == Start(c, ps, start.off);
    DamagedIsInPlace(c, ps, k, p, sum);
    DamagedWalk(c, Damaged(c, ps, k, p, sum), ps, k, p, sum, start.off, offset);
    SparseReadIsLookup(c, ps, es, offset);
  }
}
