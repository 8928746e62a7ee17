/** The record format of a log file: length, checksum over length and payload, payload. */
module WalFormat {
  import opened Bytes

  const LENGTH_SIZE: nat := 4
  const MAX_RECORD: nat := 64 * 1024 * 1024

  /** What Reserve accepts: at most 64 MiB. */
  type Payload = p: seq<byte> | |p| <= MAX_RECORD witness []

  /** A pluggable checksum: any function with results of one fixed width. */
  datatype Checksum = Checksum(size: nat, compute: seq<byte> -> seq<byte>)

  ghost predicate FixedWidth(c: Checksum) {
    forall m :: |c.compute(m)| == c.size
  }

  function HeaderSize(c: Checksum): nat {
    LENGTH_SIZE + c.size
  }

  function Record(c: Checksum, p: Payload): seq<byte> {
    PutU32(|p|) + c.compute(PutU32(|p|) + p) + p
  }

  /** The file that holds exactly these records, in order. */
  function Frame(c: Checksum, ps: seq<Payload>): seq<byte> {
    if ps == [] then [] else Frame(c, ps[..|ps| - 1]) + Record(c, ps[|ps| - 1])
  }

  /** The byte position of record `k`; for `k` the number of records, the size of the file. */
  function Start(c: Checksum, ps: seq<Payload>, k: nat): nat
    requires k <= |ps|
  {
    |Frame(c, ps[..k])|
  }

  lemma FrameAppend(c: Checksum, ps: seq<Payload>, p: Payload)
    ensures Frame(c, ps + [p]) == Frame(c, ps) + Record(c, p)
  {
    assert (ps + [p])[..|ps|] == ps;
  }

  /** A shorter list of records is a prefix of the file. */
  lemma {:induction false} FramePrefix(c: Checksum, ps: seq<Payload>, k: nat)
    requires k <= |ps|
    ensures Frame(c, ps[..k]) <= Frame(c, ps)
    ensures Start(c, ps, k) <= |Frame(c, ps)|
  {
    if k == |ps| {
      assert ps[..k] == ps;
    } else {
      var init := ps[..|ps| - 1];
      FramePrefix(c, init, k);
      assert init[..k] == ps[..k];
    }
  }

  lemma StartStep(c: Checksum, ps: seq<Payload>, k: nat)
    requires k < |ps| && FixedWidth(c)
    ensures Frame(c, ps[..k + 1]) == Frame(c, ps[..k]) + Record(c, ps[k])
    ensures Start(c, ps, k + 1) == Start(c, ps, k) + HeaderSize(c) + |ps[k]|
  {
    assert ps[..k + 1] == ps[..k] + [ps[k]];
    FrameAppend(c, ps[..k], ps[k]);
  }

  lemma {:induction false} StartMonotone(c: Checksum, ps: seq<Payload>, j: nat, k: nat)
    requires j <= k <= |ps| && FixedWidth(c)
    ensures Start(c, ps, j) <= Start(c, ps, k)
    ensures j < k ==> Start(c, ps, j) + HeaderSize(c) <= Start(c, ps, k)
    decreases k
  {
    if j < k {
      StartMonotone(c, ps, j, k - 1);
      StartStep(c, ps, k - 1);
    }
  }

  // ---------- reading a record back ----------

  /** `bytes` is what is left of a file of these records, and the whole of record `k` is in it. */
  ghost predicate HasRecord(c: Checksum, bytes: seq<byte>, ps: seq<Payload>, k: nat) {
    && bytes <= Frame(c, ps)
    && k < |ps| && Start(c, ps, k + 1) <= |bytes|
  }

  lemma RecordBytes(c: Checksum, bytes: seq<byte>, ps: seq<Payload>, k: nat)
    requires FixedWidth(c) && HasRecord(c, bytes, ps, k)
    ensures Start(c, ps, k) + HeaderSize(c) + |ps[k]| == Start(c, ps, k + 1)
    ensures bytes[Start(c, ps, k)..Start(c, ps, k + 1)] == Record(c, ps[k])
  {
    StartStep(c, ps, k);
    FramePrefix(c, ps, k + 1);
    var whole := Frame(c, ps[..k + 1]);
    assert bytes[..|whole|] == whole;
    assert whole[Start(c, ps, k)..] == Record(c, ps[k]);
    assert bytes[Start(c, ps, k)..|whole|] == whole[Start(c, ps, k)..];
  }

  /** Even when only the header of record `k` is left, its length field reads back. */
  lemma HeaderReadsBack(c: Checksum, bytes: seq<byte>, ps: seq<Payload>, k: nat)
    requires FixedWidth(c) && bytes <= Frame(c, ps) && k < |ps|
    requires Start(c, ps, k) + HeaderSize(c) <= |bytes|
    ensures U32(bytes[Start(c, ps, k)..]) == |ps[k]|
    ensures Start(c, ps, k) + HeaderSize(c) + |ps[k]| == Start(c, ps, k + 1)
  {
    var f := Frame(c, ps);
    FramePrefix(c, ps, k + 1);
    StartStep(c, ps, k);
    assert f <= f;
    RecordBytes(c, f, ps, k);
    var at, end := Start(c, ps, k), Start(c, ps, k + 1);
    var rest := c.compute(PutU32(|ps[k]|) + ps[k]) + ps[k];
    assert Record(c, ps[k]) == PutU32(|ps[k]|) + rest;
    U32RoundTrip(|ps[k]|, rest);
    forall i | 0 <= i < 4 ensures bytes[at..][i] == Record(c, ps[k])[i] {
      assert bytes[at + i] == f[at + i] == f[at..end][i];
    }
  }

  lemma SliceOfSlice(s: seq<byte>, lo: nat, hi: nat, a: nat, b: nat)
    requires lo <= hi <= |s| && a <= b <= hi - lo
    ensures s[lo..hi][a..b] == s[lo + a..lo + b]
  {
    var l, r := s[lo..hi][a..b], s[lo + a..lo + b];
    forall i | 0 <= i < b - a ensures l[i] == r[i] {
      assert s[lo..hi][a + i] == s[lo + a + i];
    }
  }

  lemma RecordParts(c: Checksum, p: Payload)
    requires FixedWidth(c)
    ensures var rec, hs := Record(c, p), HeaderSize(c);
            && |rec| == hs + |p|
            && rec[0..LENGTH_SIZE] == PutU32(|p|)
            && rec[LENGTH_SIZE..hs] == c.compute(PutU32(|p|) + p)
            && rec[hs..hs + |p|] == p
  {
  }

  /** A record is the length of its payload, the most significant byte first, the checksum over length and payload, and
      the payload. */
  lemma RecordLayout(c: Checksum, p: Payload)
    requires FixedWidth(c)
    ensures var rec, hs := Record(c, p), HeaderSize(c);
            && |rec| == hs + |p| && BigEndian(rec[..LENGTH_SIZE]) == |p|
            && rec[LENGTH_SIZE..hs] == c.compute(rec[..LENGTH_SIZE] + rec[hs..]) && rec[hs..] == p
  {
    RecordParts(c, p);
    PutU32IsBigEndian(|p|);
    assert Record(c, p)[..LENGTH_SIZE] == PutU32(|p|);
    assert Record(c, p)[HeaderSize(c)..] == p;
  }

  /** A whole record reads back: length, stored checksum and payload are what was written. */
  lemma RecordReadsBack(c: Checksum, bytes: seq<byte>, ps: seq<Payload>, k: nat)
    requires FixedWidth(c) && HasRecord(c, bytes, ps, k)
    ensures var at, hs := Start(c, ps, k), HeaderSize(c);
            && at + hs + |ps[k]| == Start(c, ps, k + 1)
            && U32(bytes[at..]) == |ps[k]|
            && bytes[at + hs..at + hs + |ps[k]|] == ps[k]
            && bytes[at + LENGTH_SIZE..at + hs] == c.compute(bytes[at..at + LENGTH_SIZE] + ps[k])
  {
    RecordBytes(c, bytes, ps, k);
    HeaderReadsBack(c, bytes, ps, k);
    var at, hs, end := Start(c, ps, k), HeaderSize(c), Start(c, ps, k + 1);
    SliceOfSlice(bytes, at, end, hs, end - at);
    SliceOfSlice(bytes, at, end, 0, LENGTH_SIZE);
    SliceOfSlice(bytes, at, end, LENGTH_SIZE, hs);
    RecordParts(c, ps[k]);
  }
}
