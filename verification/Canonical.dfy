/** The canonical (big-endian) form of a 128-bit hash, and the order of hashes. */
module Canonical {
  import opened Words
  import opened Mult128

  /** Byte order of the machine the code runs on. */
  datatype Machine = LittleEndian | BigEndian {
    /** How the machine lays a word out in memory. */
    function Bytes(x: u64): (b: seq<u8>)
      ensures |b| == 8
    {
      if LittleEndian? then WriteLE64(x) else Reverse(WriteLE64(x))
    }

    /** XXH_read64 */
    function Load(b: seq<u8>): u64
      requires |b| == 8
    {
      if LittleEndian? then ReadLE64(b) else ReadLE64(Reverse(b))
    }

    /** XXH_readBE64 */
    function LoadBE(b: seq<u8>): u64
      requires |b| == 8
    {
      if LittleEndian? then Swap64(Load(b)) else Load(b)
    }
  }

  /** XXH128_canonicalFromHash, as run on machine m. */
  function CanonicalFromHash(m: Machine, hash: U128): (c: seq<u8>)
    ensures |c| == 16
  {
    var high := if m.LittleEndian? then Swap64(hash.high) else hash.high;
    var low := if m.LittleEndian? then Swap64(hash.low) else hash.low;
    m.Bytes(high) + m.Bytes(low)
  }

  /** XXH128_hashFromCanonical, as run on machine m. */
  function HashFromCanonical(m: Machine, c: seq<u8>): U128
    requires |c| == 16
  {
    U128(m.LoadBE(c[8..]), m.LoadBE(c[..8]))
  }

  /** The bytes of a word, most significant first. */
  function BigEndianBytes(x: u64): (b: seq<u8>)
    ensures |b| == 8
  {
    Reverse(WriteLE64(x))
  }

  lemma WriteReadLE64(b: seq<u8>)
    requires |b| == 8
    ensures WriteLE64(ReadLE64(b)) == b
  {
    Pow2Literals();
    WriteReadLE(b);
    assert b[..8] == b;
  }

  lemma SwapReversesBytes(x: u64)
    ensures WriteLE64(Swap64(x)) == BigEndianBytes(x) && Swap64(Swap64(x)) == x
  {
    WriteReadLE64(Reverse(WriteLE64(x)));
    ReverseTwice(WriteLE64(x));
    ReadWriteLE64(x);
  }

  /** The canonical form does not depend on the machine: high word first, each word with its most
      significant byte first. */
  lemma CanonicalIsPortable(m: Machine, hash: U128)
    ensures CanonicalFromHash(m, hash) == BigEndianBytes(hash.high) + BigEndianBytes(hash.low)
  {
    hide WriteLE64, Swap64;
    SwapReversesBytes(hash.high);
    SwapReversesBytes(hash.low);
  }

  lemma LoadsBigEndian(m: Machine, b: seq<u8>)
    requires |b| == 8
    ensures BigEndianBytes(m.LoadBE(b)) == b
    ensures forall x :: BigEndianBytes(x) == b ==> m.LoadBE(b) == x
  {
    hide WriteLE64, ReadLE64, Swap64;
    WriteReadLE64(b); WriteReadLE64(Reverse(b));
    ReverseTwice(b);
    if m.LittleEndian? { SwapReversesBytes(ReadLE64(b)); }
    forall x | BigEndianBytes(x) == b ensures m.LoadBE(b) == x {
      ReadWriteLE64(x);
      ReverseTwice(WriteLE64(x));
      ReverseTwice(WriteLE64(m.LoadBE(b)));
      ReadWriteLE64(m.LoadBE(b));
    }
  }

  /** A hash written on one machine is read back on any other, and no two canonical forms stand
      for the same hash. */
  lemma CanonicalRoundTrip(writer: Machine, reader: Machine, hash: U128)
    ensures HashFromCanonical(reader, CanonicalFromHash(writer, hash)) == hash
  {
    hide BigEndianBytes;
    CanonicalIsPortable(writer, hash);
    var c := CanonicalFromHash(writer, hash);
    assert c[..8] == BigEndianBytes(hash.high) && c[8..] == BigEndianBytes(hash.low);
    LoadsBigEndian(reader, c[..8]);
    LoadsBigEndian(reader, c[8..]);
  }

  lemma HashRoundTrip(reader: Machine, writer: Machine, c: seq<u8>)
    requires |c| == 16
    ensures CanonicalFromHash(writer, HashFromCanonical(reader, c)) == c
  {
    hide BigEndianBytes;
    CanonicalIsPortable(writer, HashFromCanonical(reader, c));
    LoadsBigEndian(reader, c[..8]);
    LoadsBigEndian(reader, c[8..]);
    assert c == c[..8] + c[8..];
  }

  // ---- order --------------------------------------------------------------------------

  /** `(a > b) - (b > a)` */
  function Sign(a: nat, b: nat): int { (if a > b then 1 else 0) - (if b > a then 1 else 0) }

  /** XXH128_cmp */
  function Compare(h1: U128, h2: U128): int
  {
    var hcmp := Sign(h1.high, h2.high);
    if hcmp != 0 then hcmp else Sign(h1.low, h2.low)
  }

  /** The sign of memcmp: the first byte that differs decides. */
  function MemCmp(a: seq<u8>, b: seq<u8>): int
    requires |a| == |b|
  {
    if a == [] then 0
    else if a[0] != b[0] then Sign(a[0], b[0])
    else MemCmp(a[1..], b[1..])
  }

  /** The number whose digits in base 256 are the given bytes, most significant first. */
  function ReadBE(b: seq<u8>): (x: nat)
    ensures x < Pow2(8 * |b|)
  {
    if b == [] then 0 else
      ByteStep(|b| - 1);
      TopByte(b[0], Pow2(8 * (|b| - 1)), ReadBE(b[1..]));
      b[0] * Pow2(8 * (|b| - 1)) + ReadBE(b[1..])
  }

  lemma TopByte(d: u8, p: nat, low: nat)
    requires low < p
    ensures 0 <= d * p + low < 0x100 * p
  {
    MulMonotone(p, d, 0xFF);
  }

  lemma TopByteDecides(d: u8, e: u8, p: nat, x: nat, y: nat)
    requires x < p && y < p && d > e
    ensures d * p + x > e * p + y
  {
    MulMonotone(p, e + 1, d);
  }

  /** Comparing bytes from the front compares the numbers they are the digits of. */
  lemma {:induction false} MemCmpComparesNumbers(a: seq<u8>, b: seq<u8>)
    requires |a| == |b|
    ensures MemCmp(a, b) == Sign(ReadBE(a), ReadBE(b))
  {
    if a != [] {
      MemCmpComparesNumbers(a[1..], b[1..]);
      var p := Pow2(8 * (|a| - 1));
      if a[0] > b[0] { TopByteDecides(a[0], b[0], p, ReadBE(a[1..]), ReadBE(b[1..])); }
      if b[0] > a[0] { TopByteDecides(b[0], a[0], p, ReadBE(b[1..]), ReadBE(a[1..])); }
    }
  }

  lemma {:induction false} ReadLELast(b: seq<u8>)
    requires b != []
    ensures ReadLE(b) == ReadLE(b[..|b| - 1]) + b[|b| - 1] * Pow2(8 * (|b| - 1))
  {
    var n := |b| - 1;
    if n > 0 {
      ReadLELast(b[1..]);
      assert b[1..][..n - 1] == b[..n][1..];
      ByteStep(n - 1);
      Regroup(b[0], ReadLE(b[1..n]), b[n], Pow2(8 * (n - 1)));
    }
  }

  lemma Regroup(first: u8, middle: nat, last: u8, p: nat)
    ensures first + 0x100 * (middle + last * p) == first + 0x100 * middle + last * (0x100 * p)
  {
  }

  lemma {:induction false} ReadBEIsReversedLE(b: seq<u8>)
    ensures ReadBE(b) == ReadLE(Reverse(b))
  {
    if b != [] {
      var r := Reverse(b);
      ReadBEIsReversedLE(b[1..]);
      ReadLELast(r);
      assert r[..|b| - 1] == Reverse(b[1..]);
    }
  }

  lemma BigEndianBytesDenote(x: u64)
    ensures ReadBE(BigEndianBytes(x)) == x
  {
    hide ReadBE, WriteLE64;
    ReadBEIsReversedLE(BigEndianBytes(x));
    ReverseTwice(WriteLE64(x));
    ReadWriteLE64(x);
    assert WriteLE64(x)[..8] == WriteLE64(x);
  }

  lemma {:induction false} MemCmpOfConcat(a: seq<u8>, b: seq<u8>, c: seq<u8>, d: seq<u8>)
    requires |a| == |c| && |b| == |d|
    ensures MemCmp(a + b, c + d) == if MemCmp(a, c) != 0 then MemCmp(a, c) else MemCmp(b, d)
  {
    if a == [] {
      assert a + b == b && c + d == d;
    } else {
      assert (a + b)[1..] == a[1..] + b && (c + d)[1..] == c[1..] + d;
      MemCmpOfConcat(a[1..], b, c[1..], d);
    }
  }

  /** Comparing hashes is comparing their canonical forms byte by byte, whatever machine made
      them. */
  lemma CompareIsMemCmp(m1: Machine, m2: Machine, h1: U128, h2: U128)
    ensures Compare(h1, h2) == MemCmp(CanonicalFromHash(m1, h1), CanonicalFromHash(m2, h2))
  {
    hide BigEndianBytes, ReadBE;
    CanonicalIsPortable(m1, h1);
    CanonicalIsPortable(m2, h2);
    MemCmpOfConcat(BigEndianBytes(h1.high), BigEndianBytes(h1.low), BigEndianBytes(h2.high), BigEndianBytes(h2.low));
    MemCmpComparesNumbers(BigEndianBytes(h1.high), BigEndianBytes(h2.high));
    MemCmpComparesNumbers(BigEndianBytes(h1.low), BigEndianBytes(h2.low));
    BigEndianBytesDenote(h1.high); BigEndianBytesDenote(h1.low);
    BigEndianBytesDenote(h2.high); BigEndianBytesDenote(h2.low);
  }

  function Value(h: U128): nat { h.high * 0x1_0000_0000_0000_0000 + h.low }

  /** XXH128_cmp orders hashes totally, by their value as 128-bit numbers. */
  lemma CompareIsTotalOrder(a: U128, b: U128, c: U128)
    ensures Compare(a, b) == Sign(Value(a), Value(b)) == -Compare(b, a)
    ensures Compare(a, b) == 0 <==> a == b
    ensures Compare(a, b) <= 0 && Compare(b, c) <= 0 ==> Compare(a, c) <= 0
  {
  }
}
