/** Bytes and the big-endian integers of the on-disk formats. */
module Bytes {

  type byte = x: nat | x < 256

  const TWO_32: int := 0x1_0000_0000
  const TWO_63: int := 0x8000_0000_0000_0000
  const TWO_64: int := 0x1_0000_0000_0000_0000

  type Uint64 = x: nat | x < TWO_64

  /** Signed 64-bit values, as file positions are. */
  type Int64 = x: int | -TWO_63 <= x < TWO_63

  function PutU32(n: nat): (b: seq<byte>)
    requires n < TWO_32
    ensures |b| == 4
  {
    [n / 0x100_0000, n / 0x1_0000 % 256, n / 256 % 256, n % 256]
  }

  /** The first four bytes as an unsigned integer. */
  function U32(b: seq<byte>): (n: nat)
    requires |b| >= 4
    ensures n < TWO_32
  {
    b[0] as int * 0x100_0000 + b[1] as int * 0x1_0000 + b[2] as int * 256 + b[3] as int
  }

  lemma U32RoundTrip(n: nat, rest: seq<byte>)
    requires n < TWO_32
    ensures U32(PutU32(n) + rest) == n
  {
    var b := PutU32(n) + rest;
    assert b[0] == PutU32(n)[0] && b[1] == PutU32(n)[1] && b[2] == PutU32(n)[2] && b[3] == PutU32(n)[3];
    Digits(n);
  }

  lemma Digits(n: nat)
    ensures n == n / 0x100_0000 * 0x100_0000 + n / 0x1_0000 % 256 * 0x1_0000 + n / 256 % 256 * 256 + n % 256
  {
    var a := n / 256;
    var b := a / 256;
    assert n / 0x1_0000 == b && n / 0x100_0000 == b / 256;
  }

  lemma PutU32RoundTrip(b: seq<byte>)
    requires |b| >= 4
    ensures PutU32(U32(b)) == b[..4]
  {
    var n := U32(b);
    assert n / 256 == b[0] as int * 0x1_0000 + b[1] as int * 256 + b[2] as int;
    assert n / 0x1_0000 == b[0] as int * 256 + b[1] as int;
  }

  function PutU64(n: Uint64): (b: seq<byte>)
    ensures |b| == 8
  {
    PutU32(n / TWO_32) + PutU32(n % TWO_32)
  }

  function U64(b: seq<byte>): (n: Uint64)
    requires |b| >= 8
  {
    U32(b) * TWO_32 + U32(b[4..])
  }

  lemma U64RoundTrip(n: Uint64, rest: seq<byte>)
    ensures U64(PutU64(n) + rest) == n
  {
    var b := PutU64(n) + rest;
    U32RoundTrip(n / TWO_32, PutU32(n % TWO_32) + rest);
    U32RoundTrip(n % TWO_32, rest);
    assert b == PutU32(n / TWO_32) + (PutU32(n % TWO_32) + rest);
    assert b[4..] == PutU32(n % TWO_32) + rest;
  }

  lemma PutU64RoundTrip(b: seq<byte>)
    requires |b| >= 8
    ensures PutU64(U64(b)) == b[..8]
  {
    PutU32RoundTrip(b);
    PutU32RoundTrip(b[4..]);
    assert b[4..][..4] == b[4..8];
    assert U64(b) / TWO_32 == U32(b) && U64(b) % TWO_32 == U32(b[4..]);
  }

  // ---------- against the definition of big-endian ----------

  /** The number whose digits to the base 256 these are, the most significant first. */
  function BigEndian(b: seq<byte>): nat {
    if b == [] then 0 else 256 * BigEndian(b[..|b| - 1]) + b[|b| - 1] as int
  }

  lemma BigEndianOfFour(b: seq<byte>)
    requires |b| == 4
    ensures BigEndian(b) == U32(b)
  {
    assert b[..3][..2] == b[..2] && b[..2][..1] == b[..1];
    assert BigEndian(b[..1]) == b[0] as int;
    assert BigEndian(b[..2]) == 256 * b[0] as int + b[1] as int;
    assert BigEndian(b[..3]) == 256 * BigEndian(b[..2]) + b[2] as int;
  }

  lemma PutU32IsBigEndian(n: nat)
    requires n < TWO_32
    ensures BigEndian(PutU32(n)) == n
  {
    BigEndianOfFour(PutU32(n));
    U32RoundTrip(n, []);
    assert PutU32(n) + [] == PutU32(n);
  }

  lemma BigEndianDigit(b: seq<byte>, x: byte)
    ensures BigEndian(b + [x]) == 256 * BigEndian(b) + x as int
  {
    assert (b + [x])[..|b|] == b;
  }

  lemma BigEndianConcat(a: seq<byte>, b: seq<byte>)
    requires |b| == 4
    ensures BigEndian(a + b) == BigEndian(a) * TWO_32 + BigEndian(b)
  {
    BigEndianDigit(a, b[0]);
    BigEndianDigit(a + [b[0]], b[1]);
    BigEndianDigit(a + [b[0]] + [b[1]], b[2]);
    BigEndianDigit(a + [b[0]] + [b[1]] + [b[2]], b[3]);
    assert a + b == a + [b[0]] + [b[1]] + [b[2]] + [b[3]];
    BigEndianOfFour(b);
  }

  lemma PutU64IsBigEndian(n: Uint64)
    ensures BigEndian(PutU64(n)) == n
  {
    PutU32IsBigEndian(n / TWO_32);
    PutU32IsBigEndian(n % TWO_32);
    BigEndianConcat(PutU32(n / TWO_32), PutU32(n % TWO_32));
  }

  /** Go's conversion between the two 64-bit types: the bits stay, the reading changes. */
  function ToInt64(n: Uint64): Int64 {
    if n < TWO_63 then n else n - TWO_64
  }

  function ToUint64(x: Int64): Uint64 {
    if x >= 0 then x else x + TWO_64
  }

  function Zeros(k: nat): (z: seq<byte>)
    ensures |z| == k && forall i :: 0 <= i < k ==> z[i] == 0
  {
    seq(k, _ => 0)
  }
}
