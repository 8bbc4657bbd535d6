/** Evaluating the bitwise operations on given numbers.  The solver folds machine words whose value it
    knows; here that is tied to the operations of `Words`, byte by byte. */
module Literals {
  import opened Words
  import opened Xxh3Short

  // ---- the bits of a number in two parts ----------------------------------------------

  function Times(a: nat, p: nat): nat { a * p }

  lemma {:induction false} XorConcat(a: nat, b: nat, r: nat, t: nat, n: nat)
    requires r < Pow2(n) && t < Pow2(n)
    ensures Xor(Times(a, Pow2(n)) + r, Times(b, Pow2(n)) + t) == Times(Xor(a, b), Pow2(n)) + Xor(r, t)
  {
    if n > 0 {
      var p := Pow2(n - 1);
      XorConcat(a, b, r / 2, t / 2, n - 1);
      XorBits(r, t);
      assert Pow2(n) == 2 * p;
      hide Xor, Pow2, Times;
      Halve(a, r, p); Halve(b, t, p); Halve(Xor(a, b), Xor(r, t), p);
      XorHalves(Times(a, 2 * p) + r, Times(b, 2 * p) + t, Times(Xor(a, b), 2 * p) + Xor(r, t), r, t);
    }
  }

  lemma Halve(a: nat, r: nat, p: nat)
    ensures (Times(a, 2 * p) + r) / 2 == Times(a, p) + r / 2 && (Times(a, 2 * p) + r) % 2 == r % 2
  {
    assert a * (2 * p) == 2 * (a * p);
  }

  lemma XorHalves(x: nat, y: nat, z: nat, r: nat, t: nat)
    requires x % 2 == r % 2 && y % 2 == t % 2 && z % 2 == Xor(r, t) % 2 && z / 2 == Xor(x / 2, y / 2)
    ensures Xor(x, y) == z
  {
    XorBits(x, y);
    XorBits(r, t);
    hide Xor;
    SumParity(x, y, r, t);
    SameHalves(Xor(x, y), z);
  }

  lemma SumParity(x: nat, y: nat, r: nat, t: nat)
    requires x % 2 == r % 2 && y % 2 == t % 2
    ensures (x + y) % 2 == (r + t) % 2
  {
    var j, k, l, m := x / 2, y / 2, r / 2, t / 2;
    DivUnique(x + y, 2, j + k + (r % 2 + t % 2) / 2, (r % 2 + t % 2) % 2);
    DivUnique(r + t, 2, l + m + (r % 2 + t % 2) / 2, (r % 2 + t % 2) % 2);
  }

  // ---- exclusive or of bytes ----------------------------------------------------------

  function IntOf(a: bv8): nat { a as nat }

  function Half(a: bv8): bv8 { a >> 1 }

  function XorOf(a: bv8, b: bv8): bv8 { a ^ b }

  lemma ByteHalves(a: bv8)
    ensures IntOf(a) / 2 == IntOf(Half(a)) && IntOf(a) % 2 == IntOf(a & 1)
  {
    assert (a as int) == 2 * ((a >> 1) as int) + ((a & 1) as int);
  }

  lemma LowBits(a: bv8, b: bv8)
    ensures IntOf((a ^ b) & 1) == (IntOf(a & 1) + IntOf(b & 1)) % 2
  {
    assert a & 1 == 0 || a & 1 == 1;
    assert b & 1 == 0 || b & 1 == 1;
    assert (a ^ b) & 1 == (a & 1) ^ (b & 1);
  }

  lemma HalvesOfXor(a: bv8, b: bv8)
    ensures IntOf(XorOf(a, b)) / 2 == IntOf(XorOf(Half(a), Half(b)))
    ensures IntOf(XorOf(a, b)) % 2 == (IntOf(a) + IntOf(b)) % 2
  {
    ByteHalves(a); ByteHalves(b); ByteHalves(a ^ b);
    assert (a ^ b) >> 1 == (a >> 1) ^ (b >> 1);
    LowBits(a, b);
    hide Half, XorOf;
    SumParity(IntOf(a), IntOf(b), IntOf(a & 1), IntOf(b & 1));
  }

  lemma ZeroBytesXor(a: bv8, b: bv8)
    requires IntOf(a) == 0 && IntOf(b) == 0
    ensures IntOf(XorOf(a, b)) == 0
  {
    assert a == 0 && b == 0;
  }

  lemma {:induction false} XorOfBytes(a: bv8, b: bv8, n: nat)
    requires IntOf(a) < Pow2(n) && IntOf(b) < Pow2(n)
    ensures Xor(IntOf(a), IntOf(b)) == IntOf(XorOf(a, b))
    decreases n
  {
    hide IntOf, Half, XorOf;
    if n == 0 {
      ZeroBytesXor(a, b);
    } else {
      ByteHalves(a); ByteHalves(b);
      HalvesOfXor(a, b);
      XorOfBytes(Half(a), Half(b), n - 1);
      XorBits(IntOf(a), IntOf(b));
    }
  }

  // ---- and of words -------------------------------------------------------------------

  /** The lowest byte of a machine word. */
  function Low(v: bv64): u8 { (v & 0xFF) as int }

  lemma SmallWord(u: bv64)
    requires u <= 0xFF
    ensures IntOf(u as bv8) == u as nat
  {
  }

  lemma LowXor(v: bv64, w: bv64)
    ensures Xor(Low(v), Low(w)) == Low(v ^ w)
  {
    SmallXor(v & 0xFF, w & 0xFF);
    assert (v ^ w) & 0xFF == (v & 0xFF) ^ (w & 0xFF);
    hide Xor;
  }

  lemma SmallXor(u: bv64, v: bv64)
    requires u <= 0xFF && v <= 0xFF
    ensures u ^ v <= 0xFF && Xor(u as nat, v as nat) == (u ^ v) as nat
  {
    assert u ^ v <= 0xFF && (u ^ v) as bv8 == (u as bv8) ^ (v as bv8);
    SmallWord(u); SmallWord(v); SmallWord(u ^ v);
    Pow2Of8();
    hide Xor, Pow2;
    XorOfBytes(u as bv8, v as bv8, 8);
  }

  /** The number with the given bytes, lowest first. */
  function Compose(a0: u8, a1: u8, a2: u8, a3: u8, a4: u8, a5: u8, a6: u8, a7: u8): nat
  {
    0x100 * (0x100 * (0x100 * (0x100 * (0x100 * (0x100 * (0x100 * a7 + a6) + a5) + a4) + a3) + a2) + a1) + a0
  }

  lemma NextByteXor(h: nat, g: nat, a: u8, b: u8)
    ensures Xor(0x100 * h + a, 0x100 * g + b) == 0x100 * Xor(h, g) + Xor(a, b)
  {
    Pow2Of8();
    hide Xor, Pow2;
    XorConcat(h, g, a, b, 8);
  }

  lemma ComposeXor(a0: u8, a1: u8, a2: u8, a3: u8, a4: u8, a5: u8, a6: u8, a7: u8,
                   b0: u8, b1: u8, b2: u8, b3: u8, b4: u8, b5: u8, b6: u8, b7: u8,
                   c0: u8, c1: u8, c2: u8, c3: u8, c4: u8, c5: u8, c6: u8, c7: u8)
    requires Xor(a0, b0) == c0 && Xor(a1, b1) == c1 && Xor(a2, b2) == c2 && Xor(a3, b3) == c3
    requires Xor(a4, b4) == c4 && Xor(a5, b5) == c5 && Xor(a6, b6) == c6 && Xor(a7, b7) == c7
    ensures Xor(Compose(a0, a1, a2, a3, a4, a5, a6, a7), Compose(b0, b1, b2, b3, b4, b5, b6, b7))
         == Compose(c0, c1, c2, c3, c4, c5, c6, c7)
  {
    hide Xor;
    var x6, y6 := 0x100 * a7 + a6, 0x100 * b7 + b6;
    var x5, y5 := 0x100 * x6 + a5, 0x100 * y6 + b5;
    var x4, y4 := 0x100 * x5 + a4, 0x100 * y5 + b4;
    var x3, y3 := 0x100 * x4 + a3, 0x100 * y4 + b3;
    var x2, y2 := 0x100 * x3 + a2, 0x100 * y3 + b2;
    var x1, y1 := 0x100 * x2 + a1, 0x100 * y2 + b1;
    NextByteXor(a7, b7, a6, b6);
    NextByteXor(x6, y6, a5, b5); NextByteXor(x5, y5, a4, b4); NextByteXor(x4, y4, a3, b3);
    NextByteXor(x3, y3, a2, b2); NextByteXor(x2, y2, a1, b1); NextByteXor(x1, y1, a0, b0);
  }

  /** x and y are given by the lowest bytes of eight words each, and so is z by their exclusive ors. */
  predicate Bytewise(x: u64, y: u64, z: u64,
                     v0: bv64, v1: bv64, v2: bv64, v3: bv64, v4: bv64, v5: bv64, v6: bv64, v7: bv64,
                     w0: bv64, w1: bv64, w2: bv64, w3: bv64, w4: bv64, w5: bv64, w6: bv64, w7: bv64)
  {
    && x == Compose(Low(v0), Low(v1), Low(v2), Low(v3), Low(v4), Low(v5), Low(v6), Low(v7))
    && y == Compose(Low(w0), Low(w1), Low(w2), Low(w3), Low(w4), Low(w5), Low(w6), Low(w7))
    && z == Compose(Low(v0 ^ w0), Low(v1 ^ w1), Low(v2 ^ w2), Low(v3 ^ w3),
                    Low(v4 ^ w4), Low(v5 ^ w5), Low(v6 ^ w6), Low(v7 ^ w7))
  }

  lemma BytewiseXor(x: u64, y: u64, z: u64,
                    v0: bv64, v1: bv64, v2: bv64, v3: bv64, v4: bv64, v5: bv64, v6: bv64, v7: bv64,
                    w0: bv64, w1: bv64, w2: bv64, w3: bv64, w4: bv64, w5: bv64, w6: bv64, w7: bv64)
    requires Bytewise(x, y, z, v0, v1, v2, v3, v4, v5, v6, v7, w0, w1, w2, w3, w4, w5, w6, w7)
    ensures Xor(x, y) == z
  {
    hide Xor, Low, Compose;
    LowXor(v0, w0); LowXor(v1, w1); LowXor(v2, w2); LowXor(v3, w3);
    LowXor(v4, w4); LowXor(v5, w5); LowXor(v6, w6); LowXor(v7, w7);
    ComposeXor(Low(v0), Low(v1), Low(v2), Low(v3), Low(v4), Low(v5), Low(v6), Low(v7),
               Low(w0), Low(w1), Low(w2), Low(w3), Low(w4), Low(w5), Low(w6), Low(w7),
               Low(v0 ^ w0), Low(v1 ^ w1), Low(v2 ^ w2), Low(v3 ^ w3),
               Low(v4 ^ w4), Low(v5 ^ w5), Low(v6 ^ w6), Low(v7 ^ w7));
  }

  function WordOf(x: u64): bv64 { x as bv64 }

  predicate WordsXor(x: u64, y: u64, z: u64, v: bv64, w: bv64)
  {
    Bytewise(x, y, z, v, v >> 8, v >> 16, v >> 24, v >> 32, v >> 40, v >> 48, v >> 56,
             w, w >> 8, w >> 16, w >> 24, w >> 32, w >> 40, w >> 48, w >> 56)
  }

  lemma WordsXorIs(x: u64, y: u64, z: u64, v: bv64, w: bv64)
    requires WordsXor(x, y, z, v, w)
    ensures Xor(x, y) == z
  {
    hide Xor, Bytewise;
    BytewiseXor(x, y, z, v, v >> 8, v >> 16, v >> 24, v >> 32, v >> 40, v >> 48, v >> 56,
                w, w >> 8, w >> 16, w >> 24, w >> 32, w >> 40, w >> 48, w >> 56);
  }

  /** On given numbers this is a computation with machine words. */
  predicate XorsTo(x: u64, y: u64, z: u64) { WordsXor(x, y, z, WordOf(x), WordOf(y)) }

  lemma XorIs(x: u64, y: u64, z: u64)
    requires XorsTo(x, y, z)
    ensures Xor64(x, y) == z && Xor(x, y) == z
  {
    hide Xor, WordsXor, WordOf;
    WordsXorIs(x, y, z, WordOf(x), WordOf(y));
  }

  lemma XorWithZero(a: u64)
    ensures Xor64(0, a) == a && Xor64(a, 0) == a
  {
    XorComm(0, a); XorZero(a);
  }

  lemma XorOne(a: u64)
    ensures Xor64(1, a) == if a % 2 == 0 then a + 1 else a - 1
  {
    XorZero(a / 2); XorComm(0, a / 2);
    assert Xor(1, a) == 2 * Xor(0, a / 2) + (1 + a) % 2;
  }

  // ---- shifts and rotations -----------------------------------------------------------

  lemma Powers()
    ensures Pow2(13) == 0x2000 && Pow2(15) == 0x8000 && Pow2(16) == 0x1_0000 && Pow2(28) == 0x1000_0000
    ensures Pow2(29) == 0x2000_0000 && Pow2(32) == 0x1_0000_0000 && Pow2(33) == 0x2_0000_0000
    ensures Pow2(35) == 0x8_0000_0000 && Pow2(37) == 0x20_0000_0000
  {
    assert Pow2(1) == 2 && Pow2(3) == 8 && Pow2(5) == 0x20;
    Pow2Of8();
    hide Pow2;
    Pow2Add(8, 5); Pow2Add(13, 1); Pow2Add(14, 1); Pow2Add(8, 8); Pow2Add(13, 15); Pow2Add(28, 1);
    Pow2Add(16, 16); Pow2Add(32, 1); Pow2Add(32, 3); Pow2Add(32, 5);
  }

  /** Rotation of a given number: p and q are the powers of two for r bits and for the other 64 - r. */
  lemma Rotl64Is(x: u64, r: nat, p: nat, q: nat, y: u64)
    requires r < 64 && Pow2(r) == p && p * q == TWO64 && x % q * p + x / q == y
    ensures Rotl64(x, r) == y
  {
    Pow2Literals(); Pow2Add(r, 64 - r);
    hide Pow2;
    OtherFactor(p, q, Pow2(64 - r));
  }

  lemma OtherFactor(p: nat, q: nat, s: nat)
    requires p * q == p * s && p > 0
    ensures q == s
  {
    if q < s { MulMonotone(p, q + 1, s); assert false; }
    if s < q { MulMonotone(p, s + 1, q); assert false; }
  }

  lemma Rotl32Is(x: u32, r: nat, p: nat, q: nat, y: u32)
    requires r < 32 && Pow2(r) == p && p * q == 0x1_0000_0000 && x % q * p + x / q == y
    ensures Rotl32(x, r) == y
  {
    Pow2Literals(); Pow2Add(r, 32 - r);
    hide Pow2;
    OtherFactor(p, q, Pow2(32 - r));
  }

  // ---- bytes --------------------------------------------------------------------------

  lemma ReadNext(b: seq<u8>, k: nat)
    requires k < |b|
    ensures ReadLE(b[k..]) == b[k] + 0x100 * ReadLE(b[k + 1..])
  {
    assert b[k..][1..] == b[k + 1..];
  }

  lemma ReadWord(b: seq<u8>)
    requires |b| == 8
    ensures ReadLE(b) == Compose(b[0], b[1], b[2], b[3], b[4], b[5], b[6], b[7])
  {
    ReadNext(b, 0); ReadNext(b, 1); ReadNext(b, 2); ReadNext(b, 3);
    ReadNext(b, 4); ReadNext(b, 5); ReadNext(b, 6); ReadNext(b, 7);
    assert b[0..] == b && ReadLE(b[8..]) == 0;
    hide ReadLE;
  }

  lemma ReadHalf(b: seq<u8>)
    requires |b| == 4
    ensures ReadLE(b) == Compose(b[0], b[1], b[2], b[3], 0, 0, 0, 0)
  {
    ReadNext(b, 0); ReadNext(b, 1); ReadNext(b, 2); ReadNext(b, 3);
    assert b[0..] == b && ReadLE(b[4..]) == 0;
    hide ReadLE;
  }

  /** The word at a position of given bytes. */
  lemma WordIs(b: seq<u8>, off: nat, w: u64)
    requires off + 8 <= |b|
    requires w == Compose(b[off], b[off + 1], b[off + 2], b[off + 3], b[off + 4], b[off + 5], b[off + 6], b[off + 7])
    ensures At64(b, off) == w
  {
    hide ReadLE, Compose;
    assert b[off..][..8] == b[off..off + 8];
    ReadWord(b[off..off + 8]);
  }

  lemma HalfWordIs(b: seq<u8>, off: nat, w: u32)
    requires off + 4 <= |b| && w == Compose(b[off], b[off + 1], b[off + 2], b[off + 3], 0, 0, 0, 0)
    ensures At32(b, off) == w
  {
    hide ReadLE, Compose;
    assert b[off..][..4] == b[off..off + 4];
    ReadHalf(b[off..off + 4]);
  }

  /** The bytes of a given word. */
  lemma BytesAre(w: u64, b: seq<u8>)
    requires |b| == 8 && w == Compose(b[0], b[1], b[2], b[3], b[4], b[5], b[6], b[7])
    ensures WriteLE64(w) == b
  {
    hide ReadLE, WriteLE, Compose;
    ReadWord(b);
    WriteReadLE(b);
  }

  lemma Swap64Is(x: u64, y: u64, b: seq<u8>)
    requires |b| == 8 && x == Compose(b[0], b[1], b[2], b[3], b[4], b[5], b[6], b[7])
    requires y == Compose(b[7], b[6], b[5], b[4], b[3], b[2], b[1], b[0])
    ensures Swap64(x) == y
  {
    hide ReadLE, WriteLE, Compose;
    BytesAre(x, b);
    assert Reverse(b)[..8] == Reverse(b);
    ReadWord(Reverse(b));
  }

  lemma Swap32Is(x: u32, y: u32, b: seq<u8>)
    requires |b| == 4 && x == Compose(b[0], b[1], b[2], b[3], 0, 0, 0, 0)
    requires y == Compose(b[3], b[2], b[1], b[0], 0, 0, 0, 0)
    ensures Swap32(x) == y
  {
    hide ReadLE, WriteLE, Compose;
    ReadHalf(b);
    WriteReadLE(b);
    assert Reverse(b)[..4] == Reverse(b);
    ReadHalf(Reverse(b));
  }

  /** Bytes of the default secret, from two of its rows. */
  lemma SecretBytes(k: nat, j: nat)
    requires k < 11 && j < 32
    ensures KSecret()[16 * k + j] == (SecretRow(k) + SecretRow(k + 1))[j]
  {
    hide SecretRow;
  }

  lemma SecretWord(k: nat, j: nat, w: u64)
    requires k < 11 && j + 8 <= 32
    requires var r := SecretRow(k) + SecretRow(k + 1);
             w == Compose(r[j], r[j + 1], r[j + 2], r[j + 3], r[j + 4], r[j + 5], r[j + 6], r[j + 7])
    ensures At64(KSecret(), 16 * k + j) == w
  {
    hide SecretRow, KSecret, Compose;
    SecretBytes(k, j); SecretBytes(k, j + 1); SecretBytes(k, j + 2); SecretBytes(k, j + 3);
    SecretBytes(k, j + 4); SecretBytes(k, j + 5); SecretBytes(k, j + 6); SecretBytes(k, j + 7);
    SecretLength();
    WordIs(KSecret(), 16 * k + j, w);
  }

  lemma SecretLength()
    ensures |KSecret()| == 192
  {
  }

  lemma SecretHalfWord(off: nat, w: u32)
    requires off + 4 <= 16
    requires var r := SecretRow(0); w == Compose(r[off], r[off + 1], r[off + 2], r[off + 3], 0, 0, 0, 0)
    ensures At32(KSecret(), off) == w
  {
    hide SecretRow, KSecret, Compose;
    SecretBytes(0, off); SecretBytes(0, off + 1); SecretBytes(0, off + 2); SecretBytes(0, off + 3);
    SecretLength();
    HalfWordIs(KSecret(), off, w);
  }

  function Zeros(n: nat): (b: seq<u8>)
    ensures |b| == n
  {
    seq(n, i => 0)
  }

  lemma {:induction false} ReadZeros(n: nat)
    ensures ReadLE(Zeros(n)) == 0
  {
    if n > 0 {
      ReadZeros(n - 1);
      assert Zeros(n)[1..] == Zeros(n - 1);
    }
  }

  lemma ZeroWord(n: nat, off: nat)
    requires off + 8 <= n
    ensures At64(Zeros(n), off) == 0
  {
    assert Zeros(n)[off..][..8] == Zeros(8);
    ReadZeros(8);
    hide ReadLE, Zeros;
  }

  lemma ZeroHalfWord(n: nat, off: nat)
    requires off + 4 <= n
    ensures At32(Zeros(n), off) == 0
  {
    assert Zeros(n)[off..][..4] == Zeros(4);
    ReadZeros(4);
    hide ReadLE, Zeros;
  }
}
