/** Fixed-width unsigned words as bounded integers, with the wrap-around of C written out,
    and the bitwise operations xxHash uses.  Exclusive or is defined bit by bit, so that its laws
    are proved here; machine words only serve to evaluate it on given numbers (`Literals`). */
module Words {

  type u8 = x: int | 0 <= x < 0x100
  type u32 = x: int | 0 <= x < 0x1_0000_0000
  type u64 = x: int | 0 <= x < 0x1_0000_0000_0000_0000

  const TWO64 := 0x1_0000_0000_0000_0000

  function Add32(a: u32, b: u32): u32 { (a + b) % 0x1_0000_0000 }

  function Sub32(a: u32, b: u32): u32 { (a - b) % 0x1_0000_0000 }

  function Mul32(a: u32, b: u32): u32 { (a * b) % 0x1_0000_0000 }

  function Add64(a: u64, b: u64): u64 { (a + b) % 0x1_0000_0000_0000_0000 }

  function Sub64(a: u64, b: u64): u64 { (a - b) % 0x1_0000_0000_0000_0000 }

  function Mul64(a: u64, b: u64): u64 { (a * b) % 0x1_0000_0000_0000_0000 }

  /** The product of two 32-bit values, which always fits in 64 bits (`XXH_mult32to64`). */
  function Mul32To64(a: u32, b: u32): (r: u64)
    ensures r == a * b
  {
    MulBound(a, b);
    a * b
  }

  lemma MulBound(a: u32, b: u32)
    ensures 0 <= a * b <= 0xFFFF_FFFF * 0xFFFF_FFFF
  {
    MulMonotone(a, b, 0xFFFF_FFFF);
  }

  lemma MulMonotone(a: nat, b: int, c: int)
    requires b <= c
    ensures a * b <= a * c
  {
    if a > 0 { assert a * (c - b) >= 0; }
  }

  /** The 64-bit word with the given halves. */
  function Join(lo: u32, hi: u32): (x: u64)
    ensures Lo32(x) == lo && Hi32(x) == hi
  {
    var l: int, h: int := lo, hi;
    h * 0x1_0000_0000 + l
  }

  function Lo32(x: u64): u32 { x % 0x1_0000_0000 }

  function Hi32(x: u64): u32 { x / 0x1_0000_0000 }

  // ---- powers of two and shifts -------------------------------------------------------

  function Pow2(n: nat): (p: nat)
    ensures p > 0
  {
    if n == 0 then 1 else 2 * Pow2(n - 1)
  }

  lemma {:induction false} Pow2Add(m: nat, n: nat)
    ensures Pow2(m + n) == Pow2(m) * Pow2(n)
  {
    if m > 0 {
      Pow2Add(m - 1, n);
      assert Pow2(m + n) == 2 * Pow2(m - 1 + n);
    }
  }

  lemma Pow2Square(n: nat, p: nat)
    requires Pow2(n) == p
    ensures Pow2(2 * n) == p * p
  {
    Pow2Add(n, n);
  }

  lemma Pow2Literals()
    ensures Pow2(8) == 0x100 && Pow2(32) == 0x1_0000_0000 && Pow2(64) == 0x1_0000_0000_0000_0000
  {
    Pow2Of8();
    hide Pow2;
    Pow2Square(8, 0x100);
    Pow2Square(16, 0x1_0000);
    Pow2Square(32, 0x1_0000_0000);
  }

  lemma Pow2Of8()
    ensures Pow2(8) == 0x100
  {
    assert Pow2(4) == 0x10;
  }

  /** Logical shift right, `x >> s`: halving s times. */
  function Shr(x: nat, s: nat): (r: nat)
    ensures r <= x
    decreases s
  {
    if s == 0 then x else Shr(x / 2, s - 1)
  }

  lemma {:induction false} ShrShr(x: nat, s: nat, t: nat)
    ensures Shr(Shr(x, s), t) == Shr(x, s + t)
    decreases s
  {
    if s > 0 { ShrShr(x / 2, s - 1, t); }
  }

  lemma {:induction false} ShrGone(x: nat, s: nat)
    requires x < Pow2(s)
    ensures Shr(x, s) == 0
    decreases s
  {
    if s > 0 { ShrGone(x / 2, s - 1); }
  }

  lemma {:induction false} ShrIsQuotient(x: nat, s: nat)
    ensures Shr(x, s) == x / Pow2(s)
    decreases s
  {
    if s > 0 {
      ShrIsQuotient(x / 2, s - 1);
      QuotientOfHalf(x, Pow2(s - 1));
    }
  }

  lemma QuotientOfHalf(x: nat, p: nat)
    requires p > 0
    ensures x / 2 / p == x / (2 * p)
  {
    var q, r := x / 2 / p, x / 2 % p;
    assert x / 2 == p * q + r;
    assert 2 * (p * q) == 2 * p * q;
    DivUnique(x, 2 * p, q, 2 * r + x % 2);
  }

  lemma DivUnique(x: int, d: int, q: int, r: int)
    requires d > 0 && x == d * q + r && 0 <= r < d
    ensures x / d == q && x % d == r
  {
    var e := q - x / d;
    assert d * e == x % d - r;
    if e >= 1 {
      MulMonotone(d, 1, e);
      assert false;
    } else if e <= -1 {
      MulMonotone(d, e, -1);
      assert false;
    }
  }

  // ---- rotation -----------------------------------------------------------------------

  /** Rotation left of a word below p * q by log2(p) bits: the top part x / q moves to the
      bottom, the remaining x % q moves up. */
  function Rotate(x: nat, p: nat, q: nat): (r: nat)
    requires p > 0 && q > 0 && x < p * q
    ensures r < p * q
  {
    RotateBound(x, p, q);
    x % q * p + x / q
  }

  lemma RotateBound(x: nat, p: nat, q: nat)
    requires p > 0 && q > 0 && x < p * q
    ensures x % q * p + x / q < p * q
  {
    var hi, lo := x / q, x % q;
    assert hi < p by {
      if hi >= p {
        MulMonotone(q, p, hi);
        assert false;
      }
    }
    MulMonotone(p, lo, q - 1);
  }

  function Rotl32(x: u32, r: nat): u32
    requires r <= 32
  {
    Pow2Literals(); Pow2Add(r, 32 - r);
    Rotate(x, Pow2(r), Pow2(32 - r))
  }

  function Rotl64(x: u64, r: nat): u64
    requires r <= 64
  {
    Pow2Literals(); Pow2Add(r, 64 - r);
    Rotate(x, Pow2(r), Pow2(64 - r))
  }

  /** A rotation by r bits is a shift up, whose overflow is lost, and a shift down of what was lost. */
  lemma Rotl64IsShifts(x: u64, r: nat)
    requires r < 64
    ensures Pow2(r) < TWO64 && Rotl64(x, r) == Add64(Mul64(x, Pow2(r)), Shr(x, 64 - r))
  {
    Pow2Literals(); Pow2Add(r, 64 - r);
    ShrIsQuotient(x, 64 - r);
    Pow2Above(64 - r);
    hide Pow2;
    RotateIsShifts(x, Pow2(r), Pow2(64 - r), TWO64);
  }

  lemma Rotl32IsShifts(x: u32, r: nat)
    requires r < 32
    ensures Pow2(r) < 0x1_0000_0000 && Rotl32(x, r) == Add32(Mul32(x, Pow2(r)), Shr(x, 32 - r))
  {
    Pow2Literals(); Pow2Add(r, 32 - r);
    ShrIsQuotient(x, 32 - r);
    Pow2Above(32 - r);
    hide Pow2;
    RotateIsShifts(x, Pow2(r), Pow2(32 - r), 0x1_0000_0000);
  }

  lemma Pow2Above(n: nat)
    requires n > 0
    ensures Pow2(n) >= 2
  {
  }

  lemma RotateIsShifts(x: nat, p: nat, q: nat, m: nat)
    requires p > 0 && q >= 2 && p * q == m && x < m
    ensures p < m && x / q < m && Rotate(x, p, q) == (x * p % m + x / q) % m
  {
    RotateBound(x, p, q);
    Assemble(x, x / q, x % q, p, q, m);
    MulMonotone(p, 2, q);
  }

  lemma Assemble(x: nat, hi: nat, lo: nat, p: nat, q: nat, m: nat)
    requires p * q == m && lo < q && p > 0 && x == q * hi + lo && lo * p + hi < m
    ensures hi < m && lo * p + hi == (x * p % m + hi) % m
  {
    assert lo * p >= 0;
    ShiftUp(hi, lo, p, q, m);
    DivUnique(lo * p + hi, m, 0, lo * p + hi);
  }

  /** What a shift up leaves is the low part. */
  lemma ShiftUp(hi: nat, lo: nat, p: nat, q: nat, m: nat)
    requires p * q == m && lo < q && p > 0
    ensures (q * hi + lo) * p % m == lo * p
  {
    MulMonotone(p, lo + 1, q);
    assert (q * hi + lo) * p == m * hi + lo * p by { assert q * hi * p == p * q * hi; }
    DivUnique((q * hi + lo) * p, m, hi, lo * p);
  }

  /** A rotation loses nothing. */
  lemma RotateInjective(x: nat, y: nat, p: nat, q: nat)
    requires p > 0 && q > 0 && x < p * q && y < p * q && Rotate(x, p, q) == Rotate(y, p, q)
    ensures x == y
  {
    QuotientBound(x, p, q); QuotientBound(y, p, q);
    var r := Rotate(x, p, q);
    DivUnique(r, p, x % q, x / q);
    DivUnique(r, p, y % q, y / q);
  }

  lemma QuotientBound(x: nat, p: nat, q: nat)
    requires p > 0 && q > 0 && x < p * q
    ensures x / q < p
  {
    var hi := x / q;
    if hi >= p {
      MulMonotone(q, p, hi);
      assert false;
    }
  }

  // ---- exclusive or -------------------------------------------------------------------

  function Xor(a: nat, b: nat): nat
    decreases a + b
  {
    if a == 0 && b == 0 then 0 else 2 * Xor(a / 2, b / 2) + (a + b) % 2
  }

  lemma {:induction false} XorBits(a: nat, b: nat)
    ensures Xor(a, b) / 2 == Xor(a / 2, b / 2) && Xor(a, b) % 2 == (a + b) % 2
  {
  }

  lemma {:induction false} XorBound(a: nat, b: nat, n: nat)
    requires a < Pow2(n) && b < Pow2(n)
    ensures Xor(a, b) < Pow2(n)
  {
    if n > 0 {
      XorBound(a / 2, b / 2, n - 1);
    }
  }

  lemma {:induction false} XorComm(a: nat, b: nat)
    ensures Xor(a, b) == Xor(b, a)
    decreases a + b
  {
    if a > 0 || b > 0 { XorComm(a / 2, b / 2); }
  }

  lemma {:induction false} XorAssoc(a: nat, b: nat, c: nat)
    ensures Xor(Xor(a, b), c) == Xor(a, Xor(b, c))
    decreases a + b + c
  {
    if a > 0 || b > 0 || c > 0 {
      XorAssoc(a / 2, b / 2, c / 2);
      XorBits(a, b);
      XorBits(b, c);
      XorBits(Xor(a, b), c);
      XorBits(a, Xor(b, c));
      hide Xor;
      ParityAssoc(a, b, c, Xor(a, b), Xor(b, c));
      SameHalves(Xor(Xor(a, b), c), Xor(a, Xor(b, c)));
    }
  }

  lemma SameHalves(x: nat, y: nat)
    requires x / 2 == y / 2 && x % 2 == y % 2
    ensures x == y
  {
  }

  lemma ParityAssoc(a: nat, b: nat, c: nat, ab: nat, bc: nat)
    requires ab % 2 == (a + b) % 2 && bc % 2 == (b + c) % 2
    ensures (ab + c) % 2 == (a + bc) % 2
  {
    assert (ab + c) % 2 == (a + b + c) % 2;
  }

  lemma {:induction false} XorZero(a: nat)
    ensures Xor(a, 0) == a
  {
    if a > 0 { XorZero(a / 2); }
  }

  lemma {:induction false} XorSelf(a: nat)
    ensures Xor(a, a) == 0
  {
    if a > 0 { XorSelf(a / 2); }
  }

  /** Exclusive or with the same value twice gives the first value back. */
  lemma XorCancel(a: nat, b: nat)
    ensures Xor(Xor(a, b), b) == a
  {
    XorAssoc(a, b, b); XorSelf(b); XorZero(a);
  }

  lemma {:induction false} ShrXor(a: nat, b: nat, s: nat)
    ensures Shr(Xor(a, b), s) == Xor(Shr(a, s), Shr(b, s))
    decreases s
  {
    if s > 0 {
      ShrXor(a / 2, b / 2, s - 1);
      XorBits(a, b);
    }
  }

  function Xor32(a: u32, b: u32): u32
  {
    Pow2Literals(); XorBound(a, b, 32);
    Xor(a, b)
  }

  function Xor64(a: u64, b: u64): u64
  {
    Pow2Literals(); XorBound(a, b, 64);
    Xor(a, b)
  }

  /** `x ^ (x >> s)`, the mixing step of every avalanche. */
  function XorShift64(x: u64, s: nat): u64
  {
    Xor64(x, Shr(x, s))
  }

  function XorShift32(x: u32, s: nat): u32
  {
    Xor32(x, Shr(x, s))
  }

  // ---- little- and big-endian bytes ---------------------------------------------------

  lemma ByteStep(n: nat)
    ensures Pow2(8 * (n + 1)) == 0x100 * Pow2(8 * n)
  {
    Pow2Of8();
    Pow2Add(8, 8 * n);
  }

  /** The number whose little-endian digits in base 256 are the given bytes. */
  function ReadLE(b: seq<u8>): (x: nat)
    ensures x < Pow2(8 * |b|)
  {
    if b == [] then 0 else
      ByteStep(|b| - 1);
      var low: int := b[0];
      low + 0x100 * ReadLE(b[1..])
  }

  function WriteLE(x: nat, n: nat): (b: seq<u8>)
    ensures |b| == n
  {
    if n == 0 then [] else [x % 0x100] + WriteLE(x / 0x100, n - 1)
  }

  lemma {:induction false} ReadWriteLE(x: nat, n: nat)
    requires x < Pow2(8 * n)
    ensures ReadLE(WriteLE(x, n)) == x
  {
    if n > 0 {
      ByteStep(n - 1);
      ReadWriteLE(x / 0x100, n - 1);
    }
  }

  /** Bytes are determined by the number read from them. */
  lemma {:induction false} WriteReadLE(b: seq<u8>)
    ensures WriteLE(ReadLE(b), |b|) == b
  {
    if b != [] { WriteReadLE(b[1..]); }
  }

  function ReadLE32(b: seq<u8>): u32
    requires |b| >= 4
  {
    Pow2Literals();
    ReadLE(b[..4])
  }

  function ReadLE64(b: seq<u8>): u64
    requires |b| >= 8
  {
    Pow2Literals();
    ReadLE(b[..8])
  }

  function WriteLE64(x: u64): (b: seq<u8>)
    ensures |b| == 8
  {
    WriteLE(x, 8)
  }

  lemma ReadWriteLE64(x: u64)
    ensures ReadLE64(WriteLE64(x)) == x
  {
    Pow2Literals();
    ReadWriteLE(x, 8);
    assert WriteLE64(x)[..8] == WriteLE64(x);
  }

  function Reverse<T>(b: seq<T>): (r: seq<T>)
    ensures |r| == |b|
    ensures forall i :: 0 <= i < |b| ==> r[i] == b[|b| - 1 - i]
  {
    seq(|b|, i requires 0 <= i < |b| => b[|b| - 1 - i])
  }

  lemma ReverseTwice<T>(b: seq<T>)
    ensures Reverse(Reverse(b)) == b
  {
  }

  function Swap32(x: u32): u32 { ReadLE32(Reverse(WriteLE(x, 4))) }

  function Swap64(x: u64): u64 { ReadLE64(Reverse(WriteLE64(x))) }
}
