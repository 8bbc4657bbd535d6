/** XXH3 on inputs of up to 240 bytes, in 64 and 128 bits. */
module Xxh3Short {
  import opened Words
  import opened Mult128
  import opened Xxh3Kernel

  const SECRET_SIZE_MIN := 136
  const MIDSIZE_MAX := 240
  const MIDSIZE_STARTOFFSET := 3
  const MIDSIZE_LASTOFFSET := 17

  /** XXH3_kSecret, in rows of 16 bytes. */
  function SecretRow(k: nat): (row: seq<u8>)
    requires k < 12
    ensures |row| == 16
  {
    if k == 0 then
      [0xb8, 0xfe, 0x6c, 0x39, 0x23, 0xa4, 0x4b, 0xbe, 0x7c, 0x01, 0x81, 0x2c, 0xf7, 0x21, 0xad, 0x1c]
    else if k == 1 then
      [0xde, 0xd4, 0x6d, 0xe9, 0x83, 0x90, 0x97, 0xdb, 0x72, 0x40, 0xa4, 0xa4, 0xb7, 0xb3, 0x67, 0x1f]
    else if k == 2 then
      [0xcb, 0x79, 0xe6, 0x4e, 0xcc, 0xc0, 0xe5, 0x78, 0x82, 0x5a, 0xd0, 0x7d, 0xcc, 0xff, 0x72, 0x21]
    else if k == 3 then
      [0xb8, 0x08, 0x46, 0x74, 0xf7, 0x43, 0x24, 0x8e, 0xe0, 0x35, 0x90, 0xe6, 0x81, 0x3a, 0x26, 0x4c]
    else if k == 4 then
      [0x3c, 0x28, 0x52, 0xbb, 0x91, 0xc3, 0x00, 0xcb, 0x88, 0xd0, 0x65, 0x8b, 0x1b, 0x53, 0x2e, 0xa3]
    else if k == 5 then
      [0x71, 0x64, 0x48, 0x97, 0xa2, 0x0d, 0xf9, 0x4e, 0x38, 0x19, 0xef, 0x46, 0xa9, 0xde, 0xac, 0xd8]
    else if k == 6 then
      [0xa8, 0xfa, 0x76, 0x3f, 0xe3, 0x9c, 0x34, 0x3f, 0xf9, 0xdc, 0xbb, 0xc7, 0xc7, 0x0b, 0x4f, 0x1d]
    else if k == 7 then
      [0x8a, 0x51, 0xe0, 0x4b, 0xcd, 0xb4, 0x59, 0x31, 0xc8, 0x9f, 0x7e, 0xc9, 0xd9, 0x78, 0x73, 0x64]
    else if k == 8 then
      [0xea, 0xc5, 0xac, 0x83, 0x34, 0xd3, 0xeb, 0xc3, 0xc5, 0x81, 0xa0, 0xff, 0xfa, 0x13, 0x63, 0xeb]
    else if k == 9 then
      [0x17, 0x0d, 0xdd, 0x51, 0xb7, 0xf0, 0xda, 0x49, 0xd3, 0x16, 0x55, 0x26, 0x29, 0xd4, 0x68, 0x9e]
    else if k == 10 then
      [0x2b, 0x16, 0xbe, 0x58, 0x7d, 0x47, 0xa1, 0xfc, 0x8f, 0xf8, 0xb8, 0xd1, 0x7a, 0xd0, 0x31, 0xce]
    else
      [0x45, 0xcb, 0x3a, 0x8f, 0x95, 0x16, 0x04, 0x28, 0xaf, 0xd7, 0xfb, 0xca, 0xbb, 0x4b, 0x40, 0x7e]
  }

  function KSecret(): (secret: seq<u8>)
    ensures |secret| == 192
  {
    SecretRow(0) + SecretRow(1) + SecretRow(2) + SecretRow(3) + SecretRow(4) + SecretRow(5)
    + SecretRow(6) + SecretRow(7) + SecretRow(8) + SecretRow(9) + SecretRow(10) + SecretRow(11)
  }

  function At32(b: seq<u8>, off: nat): u32
    requires off + 4 <= |b|
  {
    ReadLE32(b[off..])
  }

  function At64(b: seq<u8>, off: nat): u64
    requires off + 8 <= |b|
  {
    ReadLE64(b[off..])
  }

  // ---- final mixing -------------------------------------------------------------------

  /** XXH64_avalanche */
  function Xxh64Avalanche(h64: u64): u64
  {
    var a := Mul64(XorShift64(h64, 33), PRIME64_2);
    var b := Mul64(XorShift64(a, 29), PRIME64_3);
    XorShift64(b, 32)
  }

  const AVALANCHE_PRIME: u64 := 0x165667919E3779F9
  const MX_PRIME: u64 := 0x9FB21C651E98DF25

  /** XXH3_avalanche */
  function Avalanche(h64: u64): u64
  {
    XorShift64(Mul64(XorShift64(h64, 37), AVALANCHE_PRIME), 32)
  }

  /** XXH3_rrmxmx */
  function Rrmxmx(h64: u64, len: u64): u64
  {
    var a := Mul64(Xor64(h64, Xor64(Rotl64(h64, 49), Rotl64(h64, 24))), MX_PRIME);
    var b := Mul64(Xor64(a, Add64(Shr(a, 35), len)), MX_PRIME);
    XorShift64(b, 28)
  }

  // ---- 64 bits, 0 to 240 bytes --------------------------------------------------------

  /** The bytes of a 1 to 3 byte input and its length, packed into 32 bits. */
  function Combined(input: seq<u8>): u32
    requires 1 <= |input| <= 3
  {
    var c1: int, c2: int, c3: int := input[0], input[|input| / 2], input[|input| - 1];
    c1 * 0x1_0000 + c2 * 0x100_0000 + c3 + |input| * 0x100
  }

  function Len1To3Hash64(input: seq<u8>, secret: seq<u8>, seed: u64): u64
    requires 1 <= |input| <= 3 && |secret| >= SECRET_SIZE_MIN
  {
    var bitflip := Add64(Xor32(At32(secret, 0), At32(secret, 4)), seed);
    Xxh64Avalanche(Xor64(Combined(input), bitflip))
  }

  function SpreadSeed(seed: u64): u64
  {
    Xor64(seed, Join(0, Swap32(Lo32(seed))))
  }

  function Len4To8Hash64(input: seq<u8>, secret: seq<u8>, seed: u64): u64
    requires 4 <= |input| <= 8 && |secret| >= SECRET_SIZE_MIN
  {
    var bitflip := Sub64(Xor64(At64(secret, 8), At64(secret, 16)), SpreadSeed(seed));
    var input64 := Join(At32(input, |input| - 4), At32(input, 0));
    Rrmxmx(Xor64(input64, bitflip), |input|)
  }

  function Len9To16Hash64(input: seq<u8>, secret: seq<u8>, seed: u64): u64
    requires 9 <= |input| <= 16 && |secret| >= SECRET_SIZE_MIN
  {
    var bitflip1 := Add64(Xor64(At64(secret, 24), At64(secret, 32)), seed);
    var bitflip2 := Sub64(Xor64(At64(secret, 40), At64(secret, 48)), seed);
    var lo := Xor64(At64(input, 0), bitflip1);
    var hi := Xor64(At64(input, |input| - 8), bitflip2);
    Avalanche(Add64(Add64(Add64(|input|, Swap64(lo)), hi), Mul128Fold64(lo, hi)))
  }

  function Len0To16Hash64(input: seq<u8>, secret: seq<u8>, seed: u64): u64
    requires |input| <= 16 && |secret| >= SECRET_SIZE_MIN
  {
    if |input| > 8 then Len9To16Hash64(input, secret, seed)
    else if |input| >= 4 then Len4To8Hash64(input, secret, seed)
    else if |input| > 0 then Len1To3Hash64(input, secret, seed)
    else Xxh64Avalanche(Xor64(seed, Xor64(At64(secret, 56), At64(secret, 64))))
  }

  /** XXH3_mix16B on 16 bytes of input and 16 bytes of secret. */
  function Mix16B(input: seq<u8>, i: nat, secret: seq<u8>, s: nat, seed: u64): u64
    requires i + 16 <= |input| && s + 16 <= |secret|
  {
    Mul128Fold64(Xor64(At64(input, i), Add64(At64(secret, s), seed)),
                 Xor64(At64(input, i + 8), Sub64(At64(secret, s + 8), seed)))
  }

  /** One pair of mixes of XXH3_len_17to128_64b, taken from both ends of the input. */
  function MixEnds(acc: u64, input: seq<u8>, k: nat, secret: seq<u8>, seed: u64): u64
    requires k < 4 && 32 * k < |input| && 16 < |input| && |secret| >= SECRET_SIZE_MIN
  {
    Add64(Add64(acc, Mix16B(input, 16 * k, secret, 32 * k, seed)),
          Mix16B(input, |input| - 16 * (k + 1), secret, 32 * k + 16, seed))
  }

  /** What XXH3_len_17to128_64b has added up before its avalanche. */
  function Sum17To128(input: seq<u8>, secret: seq<u8>, seed: u64): u64
    requires 16 < |input| <= 128 && |secret| >= SECRET_SIZE_MIN
  {
    var a := Mul64(|input|, PRIME64_1);
    var b := if |input| > 96 then MixEnds(a, input, 3, secret, seed) else a;
    var c := if |input| > 64 then MixEnds(b, input, 2, secret, seed) else b;
    var d := if |input| > 32 then MixEnds(c, input, 1, secret, seed) else c;
    MixEnds(d, input, 0, secret, seed)
  }

  function Len17To128Hash64(input: seq<u8>, secret: seq<u8>, seed: u64): u64
    requires 16 < |input| <= 128 && |secret| >= SECRET_SIZE_MIN
  {
    Avalanche(Sum17To128(input, secret, seed))
  }

  /** n mixes of consecutive 16-byte pieces of input with consecutive pieces of secret. */
  function MixRun(acc: u64, input: seq<u8>, i: nat, secret: seq<u8>, s: nat, seed: u64, n: nat): u64
    requires i + 16 * n <= |input| && s + 16 * n <= |secret|
  {
    if n == 0 then acc else
      Add64(MixRun(acc, input, i, secret, s, seed, n - 1),
            Mix16B(input, i + 16 * (n - 1), secret, s + 16 * (n - 1), seed))
  }

  function Sum129To240(input: seq<u8>, secret: seq<u8>, seed: u64): u64
    requires 128 < |input| <= MIDSIZE_MAX && |secret| >= SECRET_SIZE_MIN
  {
    var first := MixRun(Mul64(|input|, PRIME64_1), input, 0, secret, 0, seed, 8);
    var rest := MixRun(Avalanche(first), input, 128, secret, MIDSIZE_STARTOFFSET, seed, |input| / 16 - 8);
    Add64(rest, Mix16B(input, |input| - 16, secret, SECRET_SIZE_MIN - MIDSIZE_LASTOFFSET, seed))
  }

  function Len129To240Hash64(input: seq<u8>, secret: seq<u8>, seed: u64): u64
    requires 128 < |input| <= MIDSIZE_MAX && |secret| >= SECRET_SIZE_MIN
  {
    Avalanche(Sum129To240(input, secret, seed))
  }

  /** XXH3_len_129to240_64b with its two loops. */
  method Len129To240Loop64(input: seq<u8>, secret: seq<u8>, seed: u64) returns (h: u64)
    requires 128 < |input| <= MIDSIZE_MAX && |secret| >= SECRET_SIZE_MIN
    ensures h == Len129To240Hash64(input, secret, seed)
  {
    hide Mix16B, Mul64, Add64, Avalanche;
    var acc := Mul64(|input|, PRIME64_1);
    var nbRounds := |input| / 16;
    var i := 0;
    while i < 8
      invariant 0 <= i <= 8
      invariant acc == MixRun(Mul64(|input|, PRIME64_1), input, 0, secret, 0, seed, i)
    {
      acc := Add64(acc, Mix16B(input, 16 * i, secret, 16 * i, seed));
      i := i + 1;
    }
    acc := Avalanche(acc);
    ghost var first := acc;
    while i < nbRounds
      invariant 8 <= i <= nbRounds
      invariant acc == MixRun(first, input, 128, secret, MIDSIZE_STARTOFFSET, seed, i - 8)
    {
      acc := Add64(acc, Mix16B(input, 16 * i, secret, 16 * (i - 8) + MIDSIZE_STARTOFFSET, seed));
      i := i + 1;
    }
    acc := Add64(acc, Mix16B(input, |input| - 16, secret, SECRET_SIZE_MIN - MIDSIZE_LASTOFFSET, seed));
    h := Avalanche(acc);
  }

  // ---- 128 bits, 0 to 16 bytes --------------------------------------------------------

  function Len1To3Hash128(input: seq<u8>, secret: seq<u8>, seed: u64): U128
    requires 1 <= |input| <= 3 && |secret| >= SECRET_SIZE_MIN
  {
    var combinedl := Combined(input);
    var combinedh := Rotl32(Swap32(combinedl), 13);
    var bitflipl := Add64(Xor32(At32(secret, 0), At32(secret, 4)), seed);
    var bitfliph := Sub64(Xor32(At32(secret, 8), At32(secret, 12)), seed);
    U128(Xxh64Avalanche(Xor64(combinedl, bitflipl)), Xxh64Avalanche(Xor64(combinedh, bitfliph)))
  }

  function Bitflip4To8(secret: seq<u8>, seed: u64): u64
    requires |secret| >= SECRET_SIZE_MIN
  {
    Add64(Xor64(At64(secret, 16), At64(secret, 24)), SpreadSeed(seed))
  }

  /** What XXH3_len_4to8_128b does after its multiply. */
  function Finish4To8(m128: U128): U128
  {
    var high := Add64(m128.high, Mul64(m128.low, 2));
    var low := Xor64(m128.low, Shr(high, 3));
    U128(XorShift64(Mul64(XorShift64(low, 35), MX_PRIME), 28), Avalanche(high))
  }

  function Len4To8Hash128(input: seq<u8>, secret: seq<u8>, seed: u64): U128
    requires 4 <= |input| <= 8 && |secret| >= SECRET_SIZE_MIN
  {
    var input64 := Join(At32(input, 0), At32(input, |input| - 4));
    var keyed := Xor64(input64, Bitflip4To8(secret, seed));
    Finish4To8(Mult64To128(keyed, PRIME64_1 + 4 * |input|))
  }

  function BitflipLo9To16(secret: seq<u8>, seed: u64): u64
    requires |secret| >= SECRET_SIZE_MIN
  {
    Sub64(Xor64(At64(secret, 32), At64(secret, 40)), seed)
  }

  function BitflipHi9To16(secret: seq<u8>, seed: u64): u64
    requires |secret| >= SECRET_SIZE_MIN
  {
    Add64(Xor64(At64(secret, 48), At64(secret, 56)), seed)
  }

  /** The contribution of the upper input word on 64-bit machines ... */
  function HiTerm(hi: u64): u64
  {
    Add64(hi, Mul32To64(Lo32(hi), PRIME32_2 - 1))
  }

  /** ... and on 32-bit machines. */
  function HiTerm32(hi: u64): u64
  {
    Add64(Join(0, Hi32(hi)), Mul32To64(Lo32(hi), PRIME32_2))
  }

  /** What XXH3_len_9to16_128b does after it has mixed in the input. */
  function Finish9To16(m128: U128): U128
  {
    var low := Xor64(m128.low, Swap64(m128.high));
    var h128 := Mult64To128(low, PRIME64_2);
    U128(Avalanche(h128.low), Avalanche(Add64(h128.high, Mul64(m128.high, PRIME64_2))))
  }

  function Len9To16Hash128(input: seq<u8>, secret: seq<u8>, seed: u64): U128
    requires 9 <= |input| <= 16 && |secret| >= SECRET_SIZE_MIN
  {
    var lo, hi := At64(input, 0), At64(input, |input| - 8);
    var m128 := Mult64To128(Xor64(Xor64(lo, hi), BitflipLo9To16(secret, seed)), PRIME64_1);
    var low := Add64(m128.low, (|input| - 1) * 0x40_0000_0000_0000);
    var high := Add64(m128.high, HiTerm(Xor64(hi, BitflipHi9To16(secret, seed))));
    Finish9To16(U128(low, high))
  }

  function Len0To16Hash128(input: seq<u8>, secret: seq<u8>, seed: u64): U128
    requires |input| <= 16 && |secret| >= SECRET_SIZE_MIN
  {
    if |input| > 8 then Len9To16Hash128(input, secret, seed)
    else if |input| >= 4 then Len4To8Hash128(input, secret, seed)
    else if |input| > 0 then Len1To3Hash128(input, secret, seed)
    else
      U128(Xxh64Avalanche(Xor64(seed, Xor64(At64(secret, 64), At64(secret, 72)))),
           Xxh64Avalanche(Xor64(seed, Xor64(At64(secret, 80), At64(secret, 88)))))
  }

  // ---- 128 bits, 17 to 240 bytes ------------------------------------------------------

  /** XXH128_mix32B on two 16-byte pieces of input and 32 bytes of secret. */
  function Mix32B(acc: U128, input: seq<u8>, i: nat, j: nat, secret: seq<u8>, s: nat, seed: u64): U128
    requires i + 16 <= |input| && j + 16 <= |input| && s + 32 <= |secret|
  {
    var low := Xor64(Add64(acc.low, Mix16B(input, i, secret, s, seed)),
                     Add64(At64(input, j), At64(input, j + 8)));
    var high := Xor64(Add64(acc.high, Mix16B(input, j, secret, s + 16, seed)),
                      Add64(At64(input, i), At64(input, i + 8)));
    U128(low, high)
  }

  function FinishMid128(acc: U128, len: u64, seed: u64): U128
  {
    var high := Add64(Add64(Mul64(acc.low, PRIME64_1), Mul64(acc.high, PRIME64_4)),
                      Mul64(Sub64(len, seed), PRIME64_2));
    U128(Avalanche(Add64(acc.low, acc.high)), Sub64(0, Avalanche(high)))
  }

  function MixEnds128(acc: U128, input: seq<u8>, k: nat, secret: seq<u8>, seed: u64): U128
    requires k < 4 && 32 * k < |input| && 16 < |input| && |secret| >= SECRET_SIZE_MIN
  {
    Mix32B(acc, input, 16 * k, |input| - 16 * (k + 1), secret, 32 * k, seed)
  }

  /** The accumulator of XXH3_len_17to128_128b before it is finished. */
  function Acc17To128(input: seq<u8>, secret: seq<u8>, seed: u64): U128
    requires 16 < |input| <= 128 && |secret| >= SECRET_SIZE_MIN
  {
    var a := U128(Mul64(|input|, PRIME64_1), 0);
    var b := if |input| > 96 then MixEnds128(a, input, 3, secret, seed) else a;
    var c := if |input| > 64 then MixEnds128(b, input, 2, secret, seed) else b;
    var d := if |input| > 32 then MixEnds128(c, input, 1, secret, seed) else c;
    MixEnds128(d, input, 0, secret, seed)
  }

  function Len17To128Hash128(input: seq<u8>, secret: seq<u8>, seed: u64): U128
    requires 16 < |input| <= 128 && |secret| >= SECRET_SIZE_MIN
  {
    FinishMid128(Acc17To128(input, secret, seed), |input|, seed)
  }

  function MixRun128(acc: U128, input: seq<u8>, i: nat, secret: seq<u8>, s: nat, seed: u64, n: nat): U128
    requires i + 32 * n <= |input| && s + 32 * n <= |secret|
  {
    if n == 0 then acc else
      Mix32B(MixRun128(acc, input, i, secret, s, seed, n - 1),
             input, i + 32 * (n - 1), i + 32 * (n - 1) + 16, secret, s + 32 * (n - 1), seed)
  }

  function Avalanche128(acc: U128): U128 { U128(Avalanche(acc.low), Avalanche(acc.high)) }

  function Acc129To240(input: seq<u8>, secret: seq<u8>, seed: u64): U128
    requires 128 < |input| <= MIDSIZE_MAX && |secret| >= SECRET_SIZE_MIN
  {
    var first := MixRun128(U128(Mul64(|input|, PRIME64_1), 0), input, 0, secret, 0, seed, 4);
    var rest := MixRun128(Avalanche128(first), input, 128, secret, MIDSIZE_STARTOFFSET, seed, |input| / 32 - 4);
    Mix32B(rest, input, |input| - 16, |input| - 32, secret, SECRET_SIZE_MIN - MIDSIZE_LASTOFFSET - 16, Sub64(0, seed))
  }

  function Len129To240Hash128(input: seq<u8>, secret: seq<u8>, seed: u64): U128
    requires 128 < |input| <= MIDSIZE_MAX && |secret| >= SECRET_SIZE_MIN
  {
    FinishMid128(Acc129To240(input, secret, seed), |input|, seed)
  }

  /** XXH3_len_129to240_128b with its two loops. */
  method Len129To240Loop128(input: seq<u8>, secret: seq<u8>, seed: u64) returns (h: U128)
    requires 128 < |input| <= MIDSIZE_MAX && |secret| >= SECRET_SIZE_MIN
    ensures h == Len129To240Hash128(input, secret, seed)
  {
    hide Mix32B, Mul64, Avalanche128, FinishMid128;
    var acc := U128(Mul64(|input|, PRIME64_1), 0);
    var nbRounds := |input| / 32;
    var i := 0;
    while i < 4
      invariant 0 <= i <= 4
      invariant acc == MixRun128(U128(Mul64(|input|, PRIME64_1), 0), input, 0, secret, 0, seed, i)
    {
      acc := Mix32B(acc, input, 32 * i, 32 * i + 16, secret, 32 * i, seed);
      i := i + 1;
    }
    acc := Avalanche128(acc);
    ghost var first := acc;
    while i < nbRounds
      invariant 4 <= i <= nbRounds
      invariant acc == MixRun128(first, input, 128, secret, MIDSIZE_STARTOFFSET, seed, i - 4)
    {
      acc := Mix32B(acc, input, 32 * i, 32 * i + 16, secret, MIDSIZE_STARTOFFSET + 32 * (i - 4), seed);
      i := i + 1;
    }
    acc := Mix32B(acc, input, |input| - 16, |input| - 32, secret,
                  SECRET_SIZE_MIN - MIDSIZE_LASTOFFSET - 16, Sub64(0, seed));
    h := FinishMid128(acc, |input|, seed);
  }

  // ---- both dispatches ----------------------------------------------------------------

  function ShortHash64(input: seq<u8>, secret: seq<u8>, seed: u64): u64
    requires |input| <= MIDSIZE_MAX && |secret| >= SECRET_SIZE_MIN
  {
    if |input| <= 16 then Len0To16Hash64(input, secret, seed)
    else if |input| <= 128 then Len17To128Hash64(input, secret, seed)
    else Len129To240Hash64(input, secret, seed)
  }

  function ShortHash128(input: seq<u8>, secret: seq<u8>, seed: u64): U128
    requires |input| <= MIDSIZE_MAX && |secret| >= SECRET_SIZE_MIN
  {
    if |input| <= 16 then Len0To16Hash128(input, secret, seed)
    else if |input| <= 128 then Len17To128Hash128(input, secret, seed)
    else Len129To240Hash128(input, secret, seed)
  }
}
