/** The tail scan of recovery: from a record boundary, count whole records by their length fields. */
module WalRecovery {
  import opened Bytes
  import opened WalFormat

  datatype ScanResult = Head(count: nat, size: nat) | Corrupt(at: nat)

  /** Scan from byte `pos`, where record number `off` starts. A torn last record is left out of the size. */
  function Scan(hs: nat, bytes: seq<byte>, pos: nat, off: nat): (r: ScanResult)
    requires LENGTH_SIZE <= hs && pos <= |bytes|
    ensures r.Head? ==> off <= r.count && pos <= r.size <= |bytes|
    decreases |bytes| - pos
  {
    if pos == |bytes| then Head(off, pos)
    else if pos + hs > |bytes| then Head(off, pos)
    else
      var length := U32(bytes[pos..]);
      if length > MAX_RECORD then Corrupt(pos)
      else if pos + hs + length > |bytes| then Head(off, pos)
      else Scan(hs, bytes, pos + hs + length, off + 1)
  }

  /** `n` is the number of whole records in the first `length` bytes of a file of these records. */
  ghost predicate IsWhole(c: Checksum, ps: seq<Payload>, length: nat, n: nat) {
    && n <= |ps| && Start(c, ps, n) <= length
    && (n < |ps| ==> length < Start(c, ps, n + 1))
  }

  /** There is only one such number. */
  lemma WholeIsUnique(c: Checksum, ps: seq<Payload>, length: nat, n: nat, m: nat)
    requires FixedWidth(c) && IsWhole(c, ps, length, n) && IsWhole(c, ps, length, m)
    ensures n == m
  {
    if n < m {
      StartMonotone(c, ps, n + 1, m);
    } else if m < n {
      StartMonotone(c, ps, m + 1, n);
    }
  }

  /** One turn of the scan, when at least the header of record `k` is left. */
  lemma ScanStep(c: Checksum, bytes: seq<byte>, ps: seq<Payload>, k: nat)
    requires FixedWidth(c) && bytes <= Frame(c, ps) && k < |ps| && Start(c, ps, k) + HeaderSize(c) <= |bytes|
    ensures Scan(HeaderSize(c), bytes, Start(c, ps, k), k) ==
            if Start(c, ps, k + 1) > |bytes| then Head(k, Start(c, ps, k))
            else Scan(HeaderSize(c), bytes, Start(c, ps, k + 1), k + 1)
  {
    HeaderReadsBack(c, bytes, ps, k);
  }

  /** On what is left of a file after any cut, started at any boundary that is still there, the scan finds
      exactly the whole records and never reports corruption. */
  lemma {:induction false} ScanFindsWhole(c: Checksum, bytes: seq<byte>, ps: seq<Payload>, k: nat) returns (n: nat)
    requires FixedWidth(c) && bytes <= Frame(c, ps)
    requires k <= |ps| && Start(c, ps, k) <= |bytes|
    ensures k <= n && IsWhole(c, ps, |bytes|, n)
    ensures Scan(HeaderSize(c), bytes, Start(c, ps, k), k) == Head(n, Start(c, ps, n))
    decreases |ps| - k
  {
    var pos := Start(c, ps, k);
    if k == |ps| {
      assert ps[..k] == ps;
      n := k;
    } else {
      StartStep(c, ps, k);
      if pos + HeaderSize(c) > |bytes| {
        n := k;
      } else {
        ScanStep(c, bytes, ps, k);
        if Start(c, ps, k + 1) > |bytes| {
          n := k;
        } else {
          n := ScanFindsWhole(c, bytes, ps, k + 1);
        }
      }
    }
  }

  /** Where the scan starts does not matter. */
  lemma TailScanIsFullScan(c: Checksum, bytes: seq<byte>, ps: seq<Payload>, k: nat)
    requires FixedWidth(c) && bytes <= Frame(c, ps)
    requires k <= |ps| && Start(c, ps, k) <= |bytes|
    ensures Scan(HeaderSize(c), bytes, Start(c, ps, k), k) == Scan(HeaderSize(c), bytes, 0, 0)
  {
    var n := ScanFindsWhole(c, bytes, ps, k);
    assert Start(c, ps, 0) == 0;
    var m := ScanFindsWhole(c, bytes, ps, 0);
    WholeIsUnique(c, ps, |bytes|, n, m);
  }

  /** Cutting the file where the scan stopped leaves exactly the whole records. */
  lemma CutAtHead(c: Checksum, bytes: seq<byte>, ps: seq<Payload>, n: nat)
    requires bytes <= Frame(c, ps) && n <= |ps| && Start(c, ps, n) <= |bytes|
    ensures bytes[..Start(c, ps, n)] == Frame(c, ps[..n])
  {
    FramePrefix(c, ps, n);
  }
}
