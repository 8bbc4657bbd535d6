/** The 128-bit XXH3 hash of up to 16 bytes can be undone: given the length, secret and seed, the
    input is computed back from the hash.  Inputs of equal length therefore never collide, which
    is what lets the hatrack tables take hash equality for key identity. */
module Xxh3Inverse {
  import opened Words
  import opened Mult128
  import opened Xxh3Kernel
  import opened Xxh3Short
  import opened Xxh3OneShot

  // ---- the steps of an avalanche and their inverses -----------------------------------

  const PRIME64_1_INV: u64 := 0x0887493432BADB37
  const PRIME64_2_INV: u64 := 0x0BA79078168D4BAF
  const PRIME64_3_INV: u64 := 0xE9E9F4C41D6DF849
  const AVALANCHE_INV: u64 := 0x8DA8EE41D6DF849
  const MX_INV: u64 := 0x2AB9C720D1024AD
  const PRIME32_2_INV: u32 := 0xB6C92F47

  lemma MulCancel(a: int, p: int, q: int, m: int)
    requires m > 0 && 0 <= a < m && (p * q) % m == 1
    ensures ((a * p) % m * q) % m == a
  {
    var k, j := a * p / m, p * q / m;
    var r := a * p % m;
    assert a * p == m * k + r && p * q == m * j + 1;
    assert r * q == a * (p * q) - m * k * q;
    assert a * (p * q) == m * (a * j) + a;
    assert r * q == m * (a * j - k * q) + a;
    DivUnique(r * q, m, a * j - k * q, a);
  }

  lemma Mul64Cancel(a: u64, p: u64, q: u64)
    requires (p * q) % 0x1_0000_0000_0000_0000 == 1
    ensures Mul64(Mul64(a, p), q) == a
  {
    MulCancel(a, p, q, 0x1_0000_0000_0000_0000);
  }

  function UnXorShift64(y: u64, s: nat): u64 { Xor64(Xor64(y, Shr(y, s)), Shr(y, s + s)) }

  /** x ^ (x >> s) loses nothing when three shifts by s clear the word. */
  lemma XorShiftInverse(x: u64, s: nat)
    requires 22 <= s
    ensures UnXorShift64(XorShift64(x, s), s) == x
  {
    hide Shr, Xor;
    var x1, x2, x3 := Shr(x, s), Shr(x, s + s), Shr(x, s + s + s);
    var y := Xor(x, x1);
    ShrXor(x, x1, s); ShrShr(x, s, s);
    ShrXor(x, x1, s + s); ShrShr(x, s, s + s);
    assert Shr(y, s) == Xor(x1, x2) && Shr(y, s + s) == Xor(x2, x3);
    assert x3 == 0 by { Gone(x, s + s + s); }
    XorZero(x2);
    XorAssoc(x, x1, Xor(x1, x2)); XorAssoc(x1, x1, x2); XorSelf(x1); XorComm(0, x2); XorZero(x2);
    assert Xor(y, Xor(x1, x2)) == Xor(x, x2);
    XorCancel(x, x2);
  }

  lemma Gone(x: u64, s: nat)
    requires s >= 64
    ensures Shr(x, s) == 0
  {
    Pow2Literals();
    ShrGone(x, 64);
    ShrShr(x, 64, s - 64);
  }

  lemma Xor64Cancel(a: u64, b: u64)
    ensures Xor64(Xor64(a, b), b) == a
  {
    XorCancel(a, b);
  }

  lemma AddSub64(a: u64, b: u64)
    ensures Sub64(Add64(a, b), b) == a
  {
  }

  function UnXxh64Avalanche(h: u64): u64
  {
    var b := Mul64(UnXorShift64(h, 32), PRIME64_3_INV);
    var a := Mul64(UnXorShift64(b, 29), PRIME64_2_INV);
    UnXorShift64(a, 33)
  }

  lemma Xxh64AvalancheInverse(h: u64)
    ensures UnXxh64Avalanche(Xxh64Avalanche(h)) == h
  {
    hide Mul64, XorShift64, UnXorShift64;
    var x := XorShift64(h, 33);
    var a := Mul64(x, PRIME64_2);
    var y := XorShift64(a, 29);
    var b := Mul64(y, PRIME64_3);
    XorShiftInverse(b, 32); Mul64Cancel(y, PRIME64_3, PRIME64_3_INV);
    XorShiftInverse(a, 29); Mul64Cancel(x, PRIME64_2, PRIME64_2_INV);
    XorShiftInverse(h, 33);
  }

  function UnAvalanche(h: u64): u64
  {
    UnXorShift64(Mul64(UnXorShift64(h, 32), AVALANCHE_INV), 37)
  }

  lemma AvalancheInverse(h: u64)
    ensures UnAvalanche(Avalanche(h)) == h
  {
    hide Mul64, XorShift64, UnXorShift64;
    var x := XorShift64(h, 37);
    XorShiftInverse(Mul64(x, AVALANCHE_PRIME), 32);
    Mul64Cancel(x, AVALANCHE_PRIME, AVALANCHE_INV);
    XorShiftInverse(h, 37);
  }

  // ---- 1 to 3 bytes -------------------------------------------------------------------

  function Unhash1To3(h: U128, len: nat, secret: seq<u8>, seed: u64): seq<u8>
    requires 1 <= len <= 3 && |secret| >= SECRET_SIZE_MIN
  {
    var bitflip := Add64(Xor32(At32(secret, 0), At32(secret, 4)), seed);
    Uncombined(Xor64(UnXxh64Avalanche(h.low), bitflip), len)
  }

  function Uncombined(combined: u64, len: nat): seq<u8>
    requires 1 <= len <= 3
  {
    var c1, c2, c3 := combined / 0x1_0000 % 0x100, combined / 0x100_0000 % 0x100, combined % 0x100;
    if len == 1 then [c1] else if len == 2 then [c1, c2] else [c1, c2, c3]
  }

  lemma Unhash1To3OfHash(input: seq<u8>, secret: seq<u8>, seed: u64)
    requires 1 <= |input| <= 3 && |secret| >= SECRET_SIZE_MIN
    ensures Unhash1To3(Len1To3Hash128(input, secret, seed), |input|, secret, seed) == input
  {
    hide Xor64, Add64, Xor32, At32, Xxh64Avalanche, UnXxh64Avalanche, Rotl32, Swap32;
    var bitflip := Add64(Xor32(At32(secret, 0), At32(secret, 4)), seed);
    var keyed := Xor64(Combined(input), bitflip);
    Xxh64AvalancheInverse(keyed);
    Xor64Cancel(Combined(input), bitflip);
    UncombinedOfCombined(input);
  }

  lemma UncombinedOfCombined(input: seq<u8>)
    requires 1 <= |input| <= 3
    ensures Uncombined(Combined(input), |input|) == input
  {
    var c1: int, c2: int, c3: int := input[0], input[|input| / 2], input[|input| - 1];
    UnpackBytes(c1, c2, c3, |input|);
  }

  lemma UnpackBytes(c1: int, c2: int, c3: int, len: int)
    requires 0 <= c1 < 0x100 && 0 <= c2 < 0x100 && 0 <= c3 < 0x100 && 0 <= len < 0x100
    ensures var c := c1 * 0x1_0000 + c2 * 0x100_0000 + c3 + len * 0x100;
            c % 0x100 == c3 && c / 0x1_0000 % 0x100 == c1 && c / 0x100_0000 % 0x100 == c2
  {
    var c := c1 * 0x1_0000 + c2 * 0x100_0000 + c3 + len * 0x100;
    DivUnique(c, 0x1_0000, c1 + c2 * 0x100, c3 + len * 0x100);
    DivUnique(c, 0x100_0000, c2, c1 * 0x1_0000 + c3 + len * 0x100);
    DivUnique(c, 0x100, c1 * 0x100 + c2 * 0x1_0000 + len, c3);
  }

  // ---- 4 to 8 bytes -------------------------------------------------------------------

  function MultiplierInverse(len: nat): u64
    requires 4 <= len <= 8
  {
    if len == 4 then 0xC58FC94211B05527 else if len == 5 then 0xF3655C2B3B120B93
    else if len == 6 then 0x4A353FC06E6CD15F else if len == 7 then 0x72A86F8FF240390B
    else 0x6261C8662F213D17
  }

  /** Undoes everything after the first multiply and gives the low half of its product. */
  function Unfinish4To8(h: U128): u64
  {
    var high := UnAvalanche(h.high);
    Xor64(UnXorShift64(Mul64(UnXorShift64(h.low, 28), MX_INV), 35), Shr(high, 3))
  }

  /** The first and the last four bytes of the input, as one word. */
  function Joined4To8(h: U128, len: nat, secret: seq<u8>, seed: u64): u64
    requires 4 <= len <= 8 && |secret| >= SECRET_SIZE_MIN
  {
    Xor64(Mul64(Unfinish4To8(h), MultiplierInverse(len)), Bitflip4To8(secret, seed))
  }

  function Unhash4To8(h: U128, len: nat, secret: seq<u8>, seed: u64): seq<u8>
    requires 4 <= len <= 8 && |secret| >= SECRET_SIZE_MIN
  {
    var input64 := Joined4To8(h, len, secret, seed);
    WriteLE(Lo32(input64), 4)[..len - 4] + WriteLE(Hi32(input64), 4)
  }

  lemma Unfinish4To8OfFinish(m128: U128)
    ensures Unfinish4To8(Finish4To8(m128)) == m128.low
  {
    hide Mul64, Xor64, XorShift64, UnXorShift64, Avalanche, UnAvalanche, Add64, Shr;
    var high := Add64(m128.high, Mul64(m128.low, 2));
    var low := Xor64(m128.low, Shr(high, 3));
    AvalancheInverse(high);
    XorShiftInverse(Mul64(XorShift64(low, 35), MX_PRIME), 28);
    Mul64Cancel(XorShift64(low, 35), MX_PRIME, MX_INV);
    XorShiftInverse(low, 35);
    Xor64Cancel(m128.low, Shr(high, 3));
  }

  lemma Joined4To8OfHash(input: seq<u8>, secret: seq<u8>, seed: u64)
    requires 4 <= |input| <= 8 && |secret| >= SECRET_SIZE_MIN
    ensures Joined4To8(Len4To8Hash128(input, secret, seed), |input|, secret, seed)
         == Join(At32(input, 0), At32(input, |input| - 4))
  {
    hide Mul64, Xor64, Finish4To8, Unfinish4To8, Bitflip4To8, At32;
    var len := |input|;
    var joined := Join(At32(input, 0), At32(input, len - 4));
    var keyed := Xor64(joined, Bitflip4To8(secret, seed));
    var multiplier := PRIME64_1 + 4 * len;
    Unfinish4To8OfFinish(Mult64To128(keyed, multiplier));
    MultiplierInverts(len);
    LowOfProduct(keyed, multiplier);
    Mul64Cancel(keyed, multiplier, MultiplierInverse(len));
    Xor64Cancel(joined, Bitflip4To8(secret, seed));
  }

  lemma Unhash4To8OfHash(input: seq<u8>, secret: seq<u8>, seed: u64)
    requires 4 <= |input| <= 8 && |secret| >= SECRET_SIZE_MIN
    ensures Unhash4To8(Len4To8Hash128(input, secret, seed), |input|, secret, seed) == input
  {
    hide Joined4To8, Len4To8Hash128, At32, WriteLE;
    var len := |input|;
    Joined4To8OfHash(input, secret, seed);
    WriteAt32(input, 0); WriteAt32(input, len - 4);
    assert input == input[0..4][..len - 4] + input[len - 4..len];
  }

  lemma MultiplierInverts(len: nat)
    requires 4 <= len <= 8
    ensures ((PRIME64_1 + 4 * len) * MultiplierInverse(len)) % 0x1_0000_0000_0000_0000 == 1
  {
    if len == 4 {} else if len == 5 {} else if len == 6 {} else if len == 7 {} else {}
  }

  lemma LowOfProduct(a: u64, b: u64)
    ensures Mult64To128(a, b).low == Mul64(a, b)
  {
  }

  lemma WriteAt32(b: seq<u8>, off: nat)
    requires off + 4 <= |b|
    ensures WriteLE(At32(b, off), 4) == b[off..off + 4]
  {
    hide ReadLE, WriteLE;
    assert b[off..][..4] == b[off..off + 4];
    WriteReadLE(b[off..off + 4]);
  }

  lemma WriteAt64(b: seq<u8>, off: nat)
    requires off + 8 <= |b|
    ensures WriteLE64(At64(b, off)) == b[off..off + 8]
  {
    hide ReadLE, WriteLE;
    assert b[off..][..8] == b[off..off + 8];
    WriteReadLE(b[off..off + 8]);
  }

  // ---- 9 to 16 bytes ------------------------------------------------------------------

  /** The 32-bit and the 64-bit form of the same term agree. */
  lemma HiTermForms(hi: u64)
    ensures HiTerm(hi) == HiTerm32(hi)
  {
    var a: int, b: int, p: int := Lo32(hi), Hi32(hi), PRIME32_2;
    assert hi == b * 0x1_0000_0000 + a;
    assert a * (p - 1) == a * p - a;
  }

  function UnHiTerm(v: u64): u64
  {
    var a := Mul32(Lo32(v), PRIME32_2_INV);
    Join(a, Hi32(Sub64(v, Mul32To64(a, PRIME32_2))))
  }

  lemma UnHiTermOfHiTerm(hi: u64)
    ensures UnHiTerm(HiTerm(hi)) == hi
  {
    HiTermForms(hi);
    var a: int, b: int := Lo32(hi), Hi32(hi);
    var product: u64 := Mul32To64(a, PRIME32_2);
    var v := HiTerm32(hi);
    assert v == Add64(Join(0, b), product);
    assert Lo32(v) == product % 0x1_0000_0000 by { LowOfSum(b, product); }
    MulCancel(a, PRIME32_2, PRIME32_2_INV, 0x1_0000_0000);
    assert Mul32(Lo32(v), PRIME32_2_INV) == a;
    AddSub64(Join(0, b), product);
  }

  lemma LowOfSum(b: u32, product: u64)
    ensures Lo32(Add64(Join(0, b), product)) == product % 0x1_0000_0000
  {
    var s: int := Join(0, b) + product;
    var k, r := s / 0x1_0000_0000_0000_0000, s % 0x1_0000_0000_0000_0000;
    DivUnique(s, 0x1_0000_0000, k * 0x1_0000_0000 + r / 0x1_0000_0000, r % 0x1_0000_0000);
    DivUnique(s, 0x1_0000_0000, b + product / 0x1_0000_0000, product % 0x1_0000_0000);
  }

  /** Undoes the last multiply and the byte swap. */
  function Unfinish9To16(h: U128): U128
  {
    var low := Mul64(UnAvalanche(h.low), PRIME64_2_INV);
    var high := Mul64(Sub64(UnAvalanche(h.high), Mult64To128(low, PRIME64_2).high), PRIME64_2_INV);
    U128(Xor64(low, Swap64(high)), high)
  }

  lemma Unfinish9To16OfFinish(m128: U128)
    ensures Unfinish9To16(Finish9To16(m128)) == m128
  {
    hide Mul64, Xor64, Avalanche, UnAvalanche, Add64, Sub64, Swap64, Mult64To128;
    var low := Xor64(m128.low, Swap64(m128.high));
    var h128 := Mult64To128(low, PRIME64_2);
    AvalancheInverse(h128.low);
    AvalancheInverse(Add64(h128.high, Mul64(m128.high, PRIME64_2)));
    LowOfProduct(low, PRIME64_2);
    Mul64Cancel(low, PRIME64_2, PRIME64_2_INV);
    Add64Comm(h128.high, Mul64(m128.high, PRIME64_2));
    AddSub64(Mul64(m128.high, PRIME64_2), h128.high);
    Mul64Cancel(m128.high, PRIME64_2, PRIME64_2_INV);
    Xor64Cancel(m128.low, Swap64(m128.high));
  }

  /** The two words of the input with the secret and the seed mixed in: what the rest of the hash is made of. */
  function Keyed9To16(h: U128, len: nat): (words: (u64, u64))
    requires 9 <= len <= 16
  {
    var m128 := Unfinish9To16(h);
    var x := Mul64(Sub64(m128.low, (len - 1) * 0x40_0000_0000_0000), PRIME64_1_INV);
    (x, UnHiTerm(Sub64(m128.high, Mult64To128(x, PRIME64_1).high)))
  }

  /** The first and the last eight bytes of the input, as two words. */
  function Words9To16(h: U128, len: nat, secret: seq<u8>, seed: u64): (words: (u64, u64))
    requires 9 <= len <= 16 && |secret| >= SECRET_SIZE_MIN
  {
    var (x, y) := Keyed9To16(h, len);
    var hi := Xor64(y, BitflipHi9To16(secret, seed));
    (Xor64(Xor64(x, BitflipLo9To16(secret, seed)), hi), hi)
  }

  function Unhash9To16(h: U128, len: nat, secret: seq<u8>, seed: u64): seq<u8>
    requires 9 <= len <= 16 && |secret| >= SECRET_SIZE_MIN
  {
    var (lo, hi) := Words9To16(h, len, secret, seed);
    WriteLE64(lo)[..len - 8] + WriteLE64(hi)
  }

  lemma Keyed9To16OfHash(input: seq<u8>, secret: seq<u8>, seed: u64)
    requires 9 <= |input| <= 16 && |secret| >= SECRET_SIZE_MIN
    ensures Keyed9To16(Len9To16Hash128(input, secret, seed), |input|)
         == (Xor64(Xor64(At64(input, 0), At64(input, |input| - 8)), BitflipLo9To16(secret, seed)),
             Xor64(At64(input, |input| - 8), BitflipHi9To16(secret, seed)))
  {
    hide Mul64, Xor64, Finish9To16, Unfinish9To16, BitflipLo9To16, BitflipHi9To16, At64,
         Add64, Sub64, HiTerm, UnHiTerm, Mult64To128;
    var len := |input|;
    var lo, hi := At64(input, 0), At64(input, len - 8);
    var x := Xor64(Xor64(lo, hi), BitflipLo9To16(secret, seed));
    var product := Mult64To128(x, PRIME64_1);
    var shifted: u64 := (len - 1) * 0x40_0000_0000_0000;
    var keyed := Xor64(hi, BitflipHi9To16(secret, seed));
    var term := HiTerm(keyed);
    Unfinish9To16OfFinish(U128(Add64(product.low, shifted), Add64(product.high, term)));
    AddSub64(product.low, shifted);
    LowOfProduct(x, PRIME64_1);
    Mul64Cancel(x, PRIME64_1, PRIME64_1_INV);
    Add64Comm(product.high, term);
    AddSub64(term, product.high);
    UnHiTermOfHiTerm(keyed);
  }

  lemma Words9To16OfHash(input: seq<u8>, secret: seq<u8>, seed: u64)
    requires 9 <= |input| <= 16 && |secret| >= SECRET_SIZE_MIN
    ensures Words9To16(Len9To16Hash128(input, secret, seed), |input|, secret, seed)
         == (At64(input, 0), At64(input, |input| - 8))
  {
    hide Xor64, Keyed9To16, Len9To16Hash128, BitflipLo9To16, BitflipHi9To16, At64;
    var lo, hi := At64(input, 0), At64(input, |input| - 8);
    Keyed9To16OfHash(input, secret, seed);
    Xor64Cancel(hi, BitflipHi9To16(secret, seed));
    Xor64Cancel(Xor64(lo, hi), BitflipLo9To16(secret, seed));
    Xor64Cancel(lo, hi);
  }

  lemma Unhash9To16OfHash(input: seq<u8>, secret: seq<u8>, seed: u64)
    requires 9 <= |input| <= 16 && |secret| >= SECRET_SIZE_MIN
    ensures Unhash9To16(Len9To16Hash128(input, secret, seed), |input|, secret, seed) == input
  {
    hide Words9To16, Len9To16Hash128, At64, WriteLE64;
    var len := |input|;
    Words9To16OfHash(input, secret, seed);
    WriteAt64(input, 0); WriteAt64(input, len - 8);
    assert input == input[0..8][..len - 8] + input[len - 8..len];
  }

  // ---- the results --------------------------------------------------------------------

  /** The input of the given length that has the given hash. */
  function Unhash(h: U128, len: nat, secret: seq<u8>, seed: u64): seq<u8>
    requires len <= 16 && |secret| >= SECRET_SIZE_MIN
  {
    if len > 8 then Unhash9To16(h, len, secret, seed)
    else if len >= 4 then Unhash4To8(h, len, secret, seed)
    else if len > 0 then Unhash1To3(h, len, secret, seed)
    else []
  }

  /** Hashing up to 16 bytes loses nothing, for every secret and every seed. */
  lemma UnhashOfHash(input: seq<u8>, secret: seq<u8>, seed: u64)
    requires |input| <= 16 && |secret| >= SECRET_SIZE_MIN
    ensures Unhash(Len0To16Hash128(input, secret, seed), |input|, secret, seed) == input
  {
    hide Unhash9To16, Unhash4To8, Unhash1To3, Len9To16Hash128, Len4To8Hash128, Len1To3Hash128;
    if |input| > 8 { Unhash9To16OfHash(input, secret, seed); }
    else if |input| >= 4 { Unhash4To8OfHash(input, secret, seed); }
    else if |input| > 0 { Unhash1To3OfHash(input, secret, seed); }
  }

  lemma ShortInputsDoNotCollide(key: Key, a: seq<u8>, b: seq<u8>)
    requires key.Valid() && |a| == |b| <= 16
    ensures Hash128(key, a) == Hash128(key, b) <==> a == b
  {
    hide Len0To16Hash128, KSecret, Unhash;
    UnhashOfHash(a, key.ShortSecret(), key.ShortSeed());
    UnhashOfHash(b, key.ShortSecret(), key.ShortSeed());
  }

  /** Every seed gives an input of 9 to 16 bytes another hash. */
  lemma SeedsDoNotCollide(input: seq<u8>, seed: u64, other: u64)
    requires 9 <= |input| <= 16
    ensures Hash128(WithSeed(seed), input) == Hash128(WithSeed(other), input) <==> seed == other
  {
    assert |KSecret()| == 192;
    hide KSecret, Len9To16Hash128, Hash128;
    Hash128Of9To16(input, seed); Hash128Of9To16(input, other);
    if Hash128(WithSeed(seed), input) == Hash128(WithSeed(other), input) {
      SeedOf9To16(input, KSecret(), seed, other);
    }
  }

  lemma Hash128Of9To16(input: seq<u8>, seed: u64)
    requires 9 <= |input| <= 16
    ensures |KSecret()| == 192 && Hash128(WithSeed(seed), input) == Len9To16Hash128(input, KSecret(), seed)
  {
    hide KSecret, Len9To16Hash128;
  }

  lemma SeedOf9To16(input: seq<u8>, secret: seq<u8>, seed: u64, other: u64)
    requires 9 <= |input| <= 16 && |secret| >= SECRET_SIZE_MIN
    requires Len9To16Hash128(input, secret, seed) == Len9To16Hash128(input, secret, other)
    ensures seed == other
  {
    hide Len9To16Hash128, Keyed9To16, Xor64, BitflipLo9To16, BitflipHi9To16, At64, Sub64;
    var word := Xor64(At64(input, 0), At64(input, |input| - 8));
    Keyed9To16OfHash(input, secret, seed); Keyed9To16OfHash(input, secret, other);
    SeedOfBitflip(word, secret, seed); SeedOfBitflip(word, secret, other);
  }

  lemma SeedOfBitflip(word: u64, secret: seq<u8>, seed: u64)
    requires |secret| >= SECRET_SIZE_MIN
    ensures Sub64(Xor64(At64(secret, 32), At64(secret, 40)),
                  Xor64(Xor64(word, BitflipLo9To16(secret, seed)), word)) == seed
  {
    hide At64, Xor;
    XorComm(word, BitflipLo9To16(secret, seed));
    Xor64Cancel(BitflipLo9To16(secret, seed), word);
  }

  // ---- the hash functions of the tables -----------------------------------------------

  /** The bytes of an object of the given size in memory, on either kind of machine. */
  function InMemory(x: u64, size: nat, littleEndian: bool): (b: seq<u8>)
    ensures |b| == size
  {
    if littleEndian then WriteLE(x, size) else Reverse(WriteLE(x, size))
  }

  /** hash_int, hash_double on the bit pattern of its argument, and hash_pointer, whose size
      depends on the machine. */
  function HashWord(x: u64, size: nat, littleEndian: bool): U128
  {
    Hash128(Plain, InMemory(x, size, littleEndian))
  }

  lemma {:induction false} WriteLEInjective(x: u64, y: u64, size: nat)
    requires x < Pow2(8 * size) && y < Pow2(8 * size) && WriteLE(x, size) == WriteLE(y, size)
    ensures x == y
  {
    ReadWriteLE(x, size);
    ReadWriteLE(y, size);
  }

  /** Keys of machine words of up to 8 bytes have the same hash only if they are the same key. */
  lemma WordHashIsIdentity(x: u64, y: u64, size: nat, littleEndian: bool)
    requires size <= 8 && x < Pow2(8 * size) && y < Pow2(8 * size)
    ensures HashWord(x, size, littleEndian) == HashWord(y, size, littleEndian) <==> x == y
  {
    hide Hash128, WriteLE;
    if HashWord(x, size, littleEndian) == HashWord(y, size, littleEndian) {
      ShortInputsDoNotCollide(Plain, InMemory(x, size, littleEndian), InMemory(y, size, littleEndian));
      ReverseTwice(WriteLE(x, size)); ReverseTwice(WriteLE(y, size));
      WriteLEInjective(x, y, size);
    }
  }
}
