/** The hashes of some given inputs, computed step by step: at least one input for each length class of
    each algorithm.  They settle the constants, the order of the steps and the places in the secret. */
module KnownHashes {
  import opened Words
  import opened Literals
  import opened Mult128
  import opened Xxh3Kernel
  import opened Xxh3Short
  import opened Xxh3Long
  import opened Xxh3OneShot
  import Xxh64
  import Xxh32

  // ---- the steps ----------------------------------------------------------------------

  lemma AvalancheIs(h: u64, q: u64, a: u64, b: u64, r: u64, c: u64)
    requires h / 0x20_0000_0000 == q && Xor64(h, q) == a && Mul64(a, AVALANCHE_PRIME) == b
    requires b / 0x1_0000_0000 == r && Xor64(b, r) == c
    ensures Avalanche(h) == c
  {
    Powers();
    hide Pow2, Xor64, Mul64;
    ShrIsQuotient(h, 37); ShrIsQuotient(b, 32);
  }

  lemma Xxh64AvalancheIs(h: u64, q: u64, a: u64, b: u64, r: u64, c: u64, d: u64, t: u64, e: u64)
    requires h / 0x2_0000_0000 == q && Xor64(h, q) == a && Mul64(a, PRIME64_2) == b
    requires b / 0x2000_0000 == r && Xor64(b, r) == c && Mul64(c, PRIME64_3) == d
    requires d / 0x1_0000_0000 == t && Xor64(d, t) == e
    ensures Xxh64Avalanche(h) == e
  {
    Powers();
    hide Pow2, Xor64, Mul64;
    ShrIsQuotient(h, 33); ShrIsQuotient(b, 29); ShrIsQuotient(d, 32);
  }

  lemma FoldIs(a: u64, b: u64, low: u64, high: u64, z: u64)
    requires a * b == 0x1_0000_0000_0000_0000 * high + low && Xor64(low, high) == z
    ensures Mul128Fold64(a, b) == z
  {
    DivUnique(a * b, 0x1_0000_0000_0000_0000, high, low);
    hide Xor64;
  }

  // ---- XXH32 --------------------------------------------------------------------------

  lemma Round32Is(acc: u32, input: u32, m: u32, v: u32, y: u32, r: u32)
    requires Mul32(input, PRIME32_2) == m && Add32(acc, m) == v
    requires v % 0x8_0000 * 0x2000 + v / 0x8_0000 == y && Mul32(y, PRIME32_1) == r
    ensures Xxh32.Round32(acc, input) == r
  {
    Powers();
    hide Pow2, Mul32, Add32, Rotl32;
    Rotl32Is(v, 13, 0x2000, 0x8_0000, y);
  }

  lemma Avalanche32Is(h: u32, q: u32, a: u32, b: u32, r: u32, c: u32, d: u32, t: u32, e: u32)
    requires h / 0x8000 == q && Xor64(h, q) == a && Mul32(a, PRIME32_2) == b
    requires b / 0x2000 == r && Xor64(b, r) == c && Mul32(c, PRIME32_3) == d
    requires d / 0x1_0000 == t && Xor64(d, t) == e
    ensures Xxh32.Avalanche32(h) == e
  {
    Powers();
    hide Pow2, Mul32, Xor, Shr;
    ShrIsQuotient(h, 15); ShrIsQuotient(b, 13); ShrIsQuotient(d, 16);
  }

  lemma Process4Is(h: u32, word: u32, m: u32, v: u32, y: u32, r: u32)
    requires Mul32(word, PRIME32_3) == m && Add32(h, m) == v
    requires v % 0x8000 * 0x2_0000 + v / 0x8000 == y && Mul32(y, Xxh32.PRIME32_4) == r
    ensures Xxh32.Process4(h, word) == r
  {
    SmallPowers();
    hide Pow2, Mul32, Add32, Rotl32;
    Rotl32Is(v, 17, 0x2_0000, 0x8000, y);
  }

  lemma Process1Is(h: u32, byte: u8, v: u32, y: u32, r: u32)
    requires Add32(h, Mul32(byte, Xxh32.PRIME32_5)) == v && v % 0x20_0000 * 0x800 + v / 0x20_0000 == y
    requires Mul32(y, PRIME32_1) == r
    ensures Xxh32.Process1(h, byte) == r
  {
    SmallPowers();
    hide Pow2, Mul32, Add32, Rotl32;
    Rotl32Is(v, 11, 0x800, 0x20_0000, y);
  }

  lemma Lanes32Of16Zeros()
    ensures Xxh32.FoldStripes32(0, Zeros(16), 1) == Xxh32.Lanes32(0x93768344, 0x8DF8C7AD, 0x0, 0xFA824469)
  {
    hide Xxh32.Round32, At32, Zeros;
    ZeroHalfWord(16, 0); ZeroHalfWord(16, 4); ZeroHalfWord(16, 8); ZeroHalfWord(16, 12);
    Round32Is(0x24234428, 0x0, 0x0, 0x24234428, 0x68850484, 0x93768344);
    Round32Is(0x85EBCA77, 0x0, 0x0, 0x85EBCA77, 0x794EF0BD, 0x8DF8C7AD);
    Round32Is(0x0, 0x0, 0x0, 0x0, 0x0, 0x0);
    Round32Is(0x61C8864F, 0x0, 0x0, 0x61C8864F, 0x10C9EC39, 0xFA824469);
    assert Xxh32.FoldStripes32(0, Zeros(16), 0) == Xxh32.Lanes32(0x24234428, 0x85EBCA77, 0x0, 0x61C8864F);
  }

  lemma Converge32Of16Zeros()
    ensures Xxh32.Converge32(Xxh32.Lanes32(0x93768344, 0x8DF8C7AD, 0x0, 0xFA824469)) == 0x34F8C758
  {
    SmallPowers();
    hide Pow2, Rotl32;
    Rotl32Is(0x93768344, 1, 0x2, 0x80000000, 0x26ED0689);
    Rotl32Is(0x8DF8C7AD, 7, 0x80, 0x2000000, 0xFC63D6C6);
    Rotl32Is(0x0, 12, 0x1000, 0x100000, 0x0);
    Rotl32Is(0xFA824469, 18, 0x40000, 0x4000, 0x11A7EA09);
  }

  lemma Xors32Of16Zeros()
    ensures Xor64(0x34F8C768, 0x69F1) == 0x34F8AE99
    ensures Xor64(0x9CD0E31F, 0x4E687) == 0x9CD40598
    ensures Xor64(0x8E02A538, 0x8E02) == 0x8E022B3A
  {
    hide Xor, Xor64;
    XorIs(0x34F8C768, 0x69F1, 0x34F8AE99);
    XorIs(0x9CD0E31F, 0x4E687, 0x9CD40598);
    XorIs(0x8E02A538, 0x8E02, 0x8E022B3A);
  }

  lemma Avalanche32Of16Zeros()
    ensures Xxh32.Avalanche32(0x34F8C768) == 0x8E022B3A
  {
    hide Xor64, Xxh32.Avalanche32;
    Xors32Of16Zeros();
    Avalanche32Is(0x34F8C768, 0x69F1, 0x34F8AE99, 0x9CD0E31F, 0x4E687, 0x9CD40598, 0x8E02A538, 0x8E02, 0x8E022B3A);
  }

  /** The XXH32 hash of 16 zero bytes. */
  lemma Hash32Of16Zeros()
    ensures Xxh32.Hash32(Zeros(16), 0) == 0x8E022B3A
  {
    hide Xxh32.Avalanche32, Xxh32.Converge32, Xxh32.FoldStripes32, Zeros;
    Lanes32Of16Zeros();
    Converge32Of16Zeros();
    Avalanche32Of16Zeros();
    assert Zeros(16)[16..] == [];
  }

  lemma Words32Of16Bytes()
    ensures var data := Zeros(12) + [1, 0, 0, 0];
            At32(data, 0) == 0 && At32(data, 4) == 0 && At32(data, 8) == 0 && At32(data, 12) == 1
  {
    hide ReadLE, Zeros;
    SameHalfWord(Zeros(12), [1, 0, 0, 0], 0); SameHalfWord(Zeros(12), [1, 0, 0, 0], 4);
    SameHalfWord(Zeros(12), [1, 0, 0, 0], 8);
    ZeroHalfWord(12, 0); ZeroHalfWord(12, 4); ZeroHalfWord(12, 8);
    assert (Zeros(12) + [1, 0, 0, 0])[12..] == [1, 0, 0, 0];
    HalfWordIs([1, 0, 0, 0], 0, 1);
  }

  lemma SameHalfWord(b: seq<u8>, more: seq<u8>, off: nat)
    requires off + 4 <= |b|
    ensures At32(b + more, off) == At32(b, off)
  {
    hide ReadLE;
    assert (b + more)[off..][..4] == b[off..][..4];
  }

  lemma Lanes32Of16Bytes()
    ensures Xxh32.FoldStripes32(0, Zeros(12) + [1, 0, 0, 0], 1)
         == Xxh32.Lanes32(0x93768344, 0x8DF8C7AD, 0x0, 0x887B0C16)
  {
    hide Xxh32.Round32, At32, Zeros;
    Words32Of16Bytes();
    Round32Is(0x24234428, 0x0, 0x0, 0x24234428, 0x68850484, 0x93768344);
    Round32Is(0x85EBCA77, 0x0, 0x0, 0x85EBCA77, 0x794EF0BD, 0x8DF8C7AD);
    Round32Is(0x0, 0x0, 0x0, 0x0, 0x0, 0x0);
    Round32Is(0x61C8864F, 0x1, 0x85EBCA77, 0xE7B450C6, 0x8A18DCF6, 0x887B0C16);
    assert Xxh32.FoldStripes32(0, Zeros(12) + [1, 0, 0, 0], 0)
        == Xxh32.Lanes32(0x24234428, 0x85EBCA77, 0x0, 0x61C8864F);
  }

  lemma Converge32Of16Bytes()
    ensures Xxh32.Converge32(Xxh32.Lanes32(0x93768344, 0x8DF8C7AD, 0x0, 0x887B0C16)) == 0x53AAFF3B
  {
    SmallPowers();
    hide Pow2, Rotl32;
    Rotl32Is(0x93768344, 1, 0x2, 0x80000000, 0x26ED0689);
    Rotl32Is(0x8DF8C7AD, 7, 0x80, 0x2000000, 0xFC63D6C6);
    Rotl32Is(0x0, 12, 0x1000, 0x100000, 0x0);
    Rotl32Is(0x887B0C16, 18, 0x40000, 0x4000, 0x305A21EC);
  }

  lemma Xors32Of16Bytes()
    ensures Xor64(0x53AAFF4B, 0xA755) == 0x53AA581E
    ensures Xor64(0xC740A1F2, 0x63A05) == 0xC7469BF7
    ensures Xor64(0x19930BDB, 0x1993) == 0x19931248
  {
    hide Xor, Xor64;
    XorIs(0x53AAFF4B, 0xA755, 0x53AA581E);
    XorIs(0xC740A1F2, 0x63A05, 0xC7469BF7);
    XorIs(0x19930BDB, 0x1993, 0x19931248);
  }

  lemma Avalanche32Of16Bytes()
    ensures Xxh32.Avalanche32(0x53AAFF4B) == 0x19931248
  {
    hide Xor64, Xxh32.Avalanche32;
    Xors32Of16Bytes();
    Avalanche32Is(0x53AAFF4B, 0xA755, 0x53AA581E, 0xC740A1F2, 0x63A05, 0xC7469BF7, 0x19930BDB, 0x1993, 0x19931248);
  }

  /** The XXH32 hash of a stripe with a one in its last word. */
  lemma Hash32Of16Bytes()
    ensures Xxh32.Hash32(Zeros(12) + [1, 0, 0, 0], 0) == 0x19931248
  {
    hide Xxh32.Avalanche32, Xxh32.Converge32, Xxh32.FoldStripes32, Zeros;
    Lanes32Of16Bytes();
    Converge32Of16Bytes();
    Avalanche32Of16Bytes();
    assert (Zeros(12) + [1, 0, 0, 0])[16..] == [];
  }

  lemma Xors32Of5Bytes()
    ensures Xor64(0xCFCC106E, 0x19F98) == 0xCFCD8FF6
    ensures Xor64(0xC0F8075A, 0x607C0) == 0xC0FE009A
    ensures Xor64(0xC002D0B2, 0xC002) == 0xC00210B0
  {
    hide Xor, Xor64;
    XorIs(0xCFCC106E, 0x19F98, 0xCFCD8FF6);
    XorIs(0xC0F8075A, 0x607C0, 0xC0FE009A);
    XorIs(0xC002D0B2, 0xC002, 0xC00210B0);
  }

  lemma Steps32Of5Bytes()
    ensures Add32(Add32(1, Xxh32.PRIME32_5), 5) == 0x165667B7
    ensures Xxh32.Process4(0x165667B7, 0x4030201) == 0x2A14C377 && Xxh32.Process1(0x2A14C377, 5) == 0xCFCC106E
    ensures Xxh32.Avalanche32(0xCFCC106E) == 0xC00210B0
  {
    hide Xor64, Xxh32.Process4, Xxh32.Process1, Xxh32.Avalanche32;
    Xors32Of5Bytes();
    Process4Is(0x165667B7, 0x4030201, 0x26C6283D, 0x3D1C8FF4, 0x1FE87A39, 0x2A14C377);
    Process1Is(0x2A14C377, 0x5, 0x99C4C9EC, 0x264F64CE, 0xCFCC106E);
    Avalanche32Is(0xCFCC106E, 0x19F98, 0xCFCD8FF6, 0xC0F8075A, 0x607C0, 0xC0FE009A, 0xC002D0B2, 0xC002, 0xC00210B0);
  }

  /** The XXH32 hash, with seed 1, of an input shorter than a stripe. */
  lemma Hash32Of5Bytes()
    ensures Xxh32.Hash32([1, 2, 3, 4, 5], 1) == 0xC00210B0
  {
    hide *;
    Short32([1, 2, 3, 4, 5], 1);
    RestOf5(0x165667B7);
    Steps32Of5Bytes();
  }

  lemma Short32(data: seq<u8>, seed: u32)
    requires |data| < 16
    ensures Xxh32.Hash32(data, seed)
         == Xxh32.Avalanche32(Xxh32.ConsumeRest32(Add32(Add32(seed, Xxh32.PRIME32_5), |data|), data))
  {
    hide Xxh32.Avalanche32, Xxh32.ConsumeRest32, Xxh32.Converge32;
    assert data[0..] == data;
  }

  lemma RestOf5(h: u32)
    ensures Xxh32.ConsumeRest32(h, [1, 2, 3, 4, 5]) == Xxh32.Process1(Xxh32.Process4(h, 0x4030201), 5)
  {
    var data: seq<u8> := [1, 2, 3, 4, 5];
    assert data[4..] == [5] && data[4..][1..] == [];
    hide Xxh32.Process4, Xxh32.Process1, At32;
    HalfWordIs(data, 0, 0x4030201);
  }

  lemma SmallPowers()
    ensures Pow2(1) == 2 && Pow2(7) == 0x80 && Pow2(11) == 0x800 && Pow2(12) == 0x1000 && Pow2(17) == 0x2_0000
    ensures Pow2(18) == 0x4_0000 && Pow2(23) == 0x80_0000 && Pow2(24) == 0x100_0000 && Pow2(27) == 0x800_0000
    ensures Pow2(31) == 0x8000_0000 && Pow2(49) == 0x2_0000_0000_0000
  {
    assert Pow2(1) == 2 && Pow2(4) == 0x10 && Pow2(7) == 0x80;
    hide Pow2;
    Pow2Add(7, 4); Pow2Add(11, 1); Pow2Add(7, 7); Pow2Add(7, 1); Pow2Add(12, 4); Pow2Add(16, 1); Pow2Add(17, 1);
    Pow2Add(12, 11); Pow2Add(23, 1); Pow2Add(23, 4); Pow2Add(27, 4); Pow2Add(31, 18);
  }

  // ---- XXH64 --------------------------------------------------------------------------

  lemma RoundIs(acc: u64, input: u64, m: u64, v: u64, y: u64, r: u64)
    requires Mul64(input, PRIME64_2) == m && Add64(acc, m) == v
    requires v % 0x2_0000_0000 * 0x8000_0000 + v / 0x2_0000_0000 == y && Mul64(y, PRIME64_1) == r
    ensures Xxh64.Round(acc, input) == r
  {
    SmallPowers();
    hide Pow2, Mul64, Add64, Rotl64;
    Rotl64Is(v, 31, 0x8000_0000, 0x2_0000_0000, y);
  }

  lemma MergeRoundIs(acc: u64, val: u64, k: u64, x: u64, m: u64, r: u64)
    requires Xxh64.Round(0, val) == k && Xor64(acc, k) == x && Mul64(x, PRIME64_1) == m && Add64(m, PRIME64_4) == r
    ensures Xxh64.MergeRound(acc, val) == r
  {
    hide Xxh64.Round, Xor64, Mul64, Add64;
  }

  lemma Mix8Is(h: u64, word: u64, k: u64, x: u64, y: u64, m: u64, r: u64)
    requires Xxh64.Round(0, word) == k && Xor64(h, k) == x && x % 0x20_0000_0000 * 0x800_0000 + x / 0x20_0000_0000 == y
    requires Mul64(y, PRIME64_1) == m && Add64(m, PRIME64_4) == r
    ensures Xxh64.Mix8(h, word) == r
  {
    SmallPowers();
    hide Pow2, Xxh64.Round, Xor64, Mul64, Add64, Rotl64;
    Rotl64Is(x, 27, 0x800_0000, 0x20_0000_0000, y);
  }

  lemma Mix4Is(h: u64, word: u32, k: u64, x: u64, y: u64, m: u64, r: u64)
    requires Mul64(word, PRIME64_1) == k && Xor64(h, k) == x
    requires x % 0x200_0000_0000 * 0x80_0000 + x / 0x200_0000_0000 == y
    requires Mul64(y, PRIME64_2) == m && Add64(m, PRIME64_3) == r
    ensures Xxh64.Mix4(h, word) == r
  {
    SmallPowers();
    hide Pow2, Xor64, Mul64, Add64, Rotl64;
    Rotl64Is(x, 23, 0x80_0000, 0x200_0000_0000, y);
  }

  lemma Mix1Is(h: u64, byte: u8, k: u64, x: u64, y: u64, r: u64)
    requires Mul64(byte, PRIME64_5) == k && Xor64(h, k) == x
    requires x % 0x20_0000_0000_0000 * 0x800 + x / 0x20_0000_0000_0000 == y && Mul64(y, PRIME64_1) == r
    ensures Xxh64.Mix1(h, byte) == r
  {
    SmallPowers();
    hide Pow2, Xor64, Mul64, Add64, Rotl64;
    Rotl64Is(x, 11, 0x800, 0x20_0000_0000_0000, y);
  }

  lemma LanesOf32Zeros()
    ensures Xxh64.FoldStripes(0, Zeros(32), 1)
         == Xxh64.Lanes(0x119361E2963B6D41, 0x7F0E345BE3649CD2, 0x0, 0x6D7AD2794D292F91)
  {
    hide Xxh64.Round, At64, Zeros;
    ZeroWord(32, 0); ZeroWord(32, 8); ZeroWord(32, 16); ZeroWord(32, 24);
    RoundIs(0x60EA27EEADC0B5D6, 0x0, 0x0, 0x60EA27EEADC0B5D6, 0x56E05AEB307513F7, 0x119361E2963B6D41);
    RoundIs(0xC2B2AE3D27D4EB4F, 0x0, 0x0, 0xC2B2AE3D27D4EB4F, 0x93EA75A7E159571E, 0x7F0E345BE3649CD2);
    RoundIs(0x0, 0x0, 0x0, 0x0, 0x0, 0x0);
    RoundIs(0x61C8864E7A143579, 0x0, 0x0, 0x61C8864E7A143579, 0x3D0A1ABCB0E44327, 0x6D7AD2794D292F91);
    assert Xxh64.FoldStripes(0, Zeros(32), 0)
        == Xxh64.Lanes(0x60EA27EEADC0B5D6, 0xC2B2AE3D27D4EB4F, 0x0, 0x61C8864E7A143579);
  }

  lemma RotationsOf32Zeros()
    ensures Rotl64(0x119361E2963B6D41, 1) == 0x2326C3C52C76DA82
    ensures Rotl64(0x7F0E345BE3649CD2, 7) == 0x871A2DF1B24E693F
    ensures Rotl64(0x0, 12) == 0x0
    ensures Rotl64(0x6D7AD2794D292F91, 18) == 0x49E534A4BE45B5EB
  {
    SmallPowers();
    hide Pow2, Rotl64;
    Rotl64Is(0x119361E2963B6D41, 1, 0x2, 0x8000000000000000, 0x2326C3C52C76DA82);
    Rotl64Is(0x7F0E345BE3649CD2, 7, 0x80, 0x200000000000000, 0x871A2DF1B24E693F);
    Rotl64Is(0x0, 12, 0x1000, 0x10000000000000, 0x0);
    Rotl64Is(0x6D7AD2794D292F91, 18, 0x40000, 0x400000000000, 0x49E534A4BE45B5EB);
  }

  lemma XorsOf32Zeros()
    ensures Xor64(0xF426265B9D0AF9AC, 0xAFA65B9B1253FE9A) == 0x5B807DC08F590736
    ensures Xor64(0xB5B565EE46E817DD, 0x111445B5E55CEBB4) == 0xA4A1205BA3B4FC69
    ensures Xor64(0x8E979DD727B1A3C2, 0x0) == 0x8E979DD727B1A3C2
    ensures Xor64(0x59737186F9AD1DB1, 0x862C55ACCD1D2293) == 0xDF5F242A34B03F22
  {
    hide Xor, Xor64;
    XorIs(0xF426265B9D0AF9AC, 0xAFA65B9B1253FE9A, 0x5B807DC08F590736);
    XorIs(0xB5B565EE46E817DD, 0x111445B5E55CEBB4, 0xA4A1205BA3B4FC69);
    XorWithZero(0x8E979DD727B1A3C2);
    XorIs(0x59737186F9AD1DB1, 0x862C55ACCD1D2293, 0xDF5F242A34B03F22);
  }

  lemma MergesOf32Zeros()
    ensures Xxh64.MergeRound(0xF426265B9D0AF9AC, 0x119361E2963B6D41) == 0xB5B565EE46E817DD
    ensures Xxh64.MergeRound(0xB5B565EE46E817DD, 0x7F0E345BE3649CD2) == 0x8E979DD727B1A3C2
    ensures Xxh64.MergeRound(0x8E979DD727B1A3C2, 0x0) == 0x59737186F9AD1DB1
    ensures Xxh64.MergeRound(0x59737186F9AD1DB1, 0x6D7AD2794D292F91) == 0xCBBFD1653BAACD51
  {
    hide Xor64, Xxh64.Round, Xxh64.MergeRound;
    XorsOf32Zeros();
    RoundIs(0x0, 0x119361E2963B6D41, 0xB57AE22D4A75620F, 0xB57AE22D4A75620F, 0xA53AB107DABD7116, 0xAFA65B9B1253FE9A);
    MergeRoundIs(0xF426265B9D0AF9AC, 0x119361E2963B6D41, 0xAFA65B9B1253FE9A, 0x5B807DC08F590736, 0x2FC99B768435697A,
                 0xB5B565EE46E817DD);
    RoundIs(0x0, 0x7F0E345BE3649CD2, 0x5AC33F5863E92ACE, 0x5AC33F5863E92ACE, 0x31F495672D619FAC, 0x111445B5E55CEBB4);
    MergeRoundIs(0xB5B565EE46E817DD, 0x7F0E345BE3649CD2, 0x111445B5E55CEBB4, 0xA4A1205BA3B4FC69, 0x8ABD35F64FEF55F,
                 0x8E979DD727B1A3C2);
    RoundIs(0x0, 0x0, 0x0, 0x0, 0x0, 0x0);
    MergeRoundIs(0x8E979DD727B1A3C2, 0x0, 0x0, 0x8E979DD727B1A3C2, 0xD387A70F36FA6F4E, 0x59737186F9AD1DB1);
    RoundIs(0x0, 0x6D7AD2794D292F91, 0xA5485D2B1973C8BF, 0xA5485D2B1973C8BF, 0x8CB9E45FD2A42E95, 0x862C55ACCD1D2293);
    MergeRoundIs(0x59737186F9AD1DB1, 0x6D7AD2794D292F91, 0x862C55ACCD1D2293, 0xDF5F242A34B03F22, 0x45D406ED78F81EEE,
                 0xCBBFD1653BAACD51);
  }

  lemma ConvergeOf32Zeros()
    ensures Xxh64.Converge(Xxh64.Lanes(0x119361E2963B6D41, 0x7F0E345BE3649CD2, 0x0, 0x6D7AD2794D292F91))
         == 0xCBBFD1653BAACD51
  {
    hide Rotl64, Xxh64.MergeRound;
    RotationsOf32Zeros();
    MergesOf32Zeros();
  }

  lemma LastXorsOf32Zeros()
    ensures Xor64(0xCBBFD1653BAACD71, 0x65DFE8B2) == 0xCBBFD1655E7525C3
    ensures Xor64(0xF7EA4738AA4CA82D, 0x7BF5239C5) == 0xF7EA473F151E91E8
    ensures Xor64(0xF6E9BE5D868A92A8, 0xF6E9BE5D) == 0xF6E9BE5D70632CF5
  {
    hide Xor, Xor64;
    XorIs(0xCBBFD1653BAACD71, 0x65DFE8B2, 0xCBBFD1655E7525C3);
    XorIs(0xF7EA4738AA4CA82D, 0x7BF5239C5, 0xF7EA473F151E91E8);
    XorIs(0xF6E9BE5D868A92A8, 0xF6E9BE5D, 0xF6E9BE5D70632CF5);
  }

  lemma AvalancheOf32Zeros()
    ensures Xxh64Avalanche(0xCBBFD1653BAACD71) == 0xF6E9BE5D70632CF5
  {
    hide Xor64, Xxh64Avalanche;
    LastXorsOf32Zeros();
    Xxh64AvalancheIs(0xCBBFD1653BAACD71, 0x65DFE8B2, 0xCBBFD1655E7525C3, 0xF7EA4738AA4CA82D, 0x7BF5239C5,
                     0xF7EA473F151E91E8, 0xF6E9BE5D868A92A8, 0xF6E9BE5D, 0xF6E9BE5D70632CF5);
  }

  /** The XXH64 hash of 32 zero bytes. */
  lemma Hash64Of32Zeros()
    ensures Xxh64.Hash(Zeros(32), 0) == 0xF6E9BE5D70632CF5
  {
    hide Xxh64Avalanche, Xxh64.Converge, Xxh64.FoldStripes, Zeros;
    LanesOf32Zeros();
    ConvergeOf32Zeros();
    AvalancheOf32Zeros();
    assert Zeros(32)[32..] == [];
  }

  lemma XorsOf13Bytes()
    ensures Xor64(0x27D4EB2F165667D3, 0x9731878735CC8067) == 0xB0E56CA8239AE7B4
    ensures Xor64(0x3938DB0C03EF42A6, 0x479C0518F30064BF) == 0x7EA4DE14F0EF2619
    ensures Xor64(0xD6CB15385AD9CF3A, 0x5CFF16422634501) == 0xD304E45C78BA8A3B
    ensures Xor64(0x2A8165BFDE585228, 0x1540B2DF) == 0x2A8165BFCB18E0F7
    ensures Xor64(0x48ADED5A70BC2939, 0x2456F6AD3) == 0x48ADED5835D343EA
    ensures Xor64(0x79879B5538DCA89A, 0x79879B55) == 0x79879B55415B33CF
  {
    hide Xor, Xor64;
    XorIs(0x27D4EB2F165667D3, 0x9731878735CC8067, 0xB0E56CA8239AE7B4);
    XorIs(0x3938DB0C03EF42A6, 0x479C0518F30064BF, 0x7EA4DE14F0EF2619);
    XorIs(0xD6CB15385AD9CF3A, 0x5CFF16422634501, 0xD304E45C78BA8A3B);
    XorIs(0x2A8165BFDE585228, 0x1540B2DF, 0x2A8165BFCB18E0F7);
    XorIs(0x48ADED5A70BC2939, 0x2456F6AD3, 0x48ADED5835D343EA);
    XorIs(0x79879B5538DCA89A, 0x79879B55, 0x79879B55415B33CF);
  }

  lemma StepsOf13Bytes1()
    ensures Add64(Add64(1, PRIME64_5), 13) == 0x27D4EB2F165667D3
    ensures Xxh64.Mix8(0x27D4EB2F165667D3, 0x807060504030201) == 0x3938DB0C03EF42A6
    ensures Xxh64.Mix4(0x3938DB0C03EF42A6, 0xC0B0A09) == 0xD6CB15385AD9CF3A
  {
    hide Xor64, Xxh64.Round, Xxh64.Mix8, Xxh64.Mix4;
    XorsOf13Bytes();
    RoundIs(0x0, 0x807060504030201, 0xD33B6643CF98894F, 0xD33B6643CF98894F, 0xE7CC44A7E99DB321, 0x9731878735CC8067);
    Mix8Is(0x27D4EB2F165667D3, 0x807060504030201, 0x9731878735CC8067, 0xB0E56CA8239AE7B4, 0x411CD73DA5872B65,
           0xB34D1094413C9443, 0x3938DB0C03EF42A6);
    Mix4Is(0x3938DB0C03EF42A6, 0xC0B0A09, 0x479C0518F30064BF, 0x7EA4DE14F0EF2619, 0xA7877930CBF526F,
           0xC074AD86BCA25541, 0xD6CB15385AD9CF3A);
  }

  lemma StepsOf13Bytes2()
    ensures Xxh64.Mix1(0xD6CB15385AD9CF3A, 13) == 0x2A8165BFDE585228
    ensures Xxh64Avalanche(0x2A8165BFDE585228) == 0x79879B55415B33CF
  {
    hide Xor64, Xxh64.Mix1, Xxh64Avalanche;
    XorsOf13Bytes();
    Mix1Is(0xD6CB15385AD9CF3A, 0xD, 0x5CFF16422634501, 0xD304E45C78BA8A3B, 0x2722E3C5D451DE98, 0x2A8165BFDE585228);
    Xxh64AvalancheIs(0x2A8165BFDE585228, 0x1540B2DF, 0x2A8165BFCB18E0F7, 0x48ADED5A70BC2939, 0x2456F6AD3,
                     0x48ADED5835D343EA, 0x79879B5538DCA89A, 0x79879B55, 0x79879B55415B33CF);
  }

  /** The XXH64 hash, with seed 1, of an input whose rest has a piece of each size. */
  lemma Hash64Of13Bytes()
    ensures Xxh64.Hash([1, 2, 3, 4, 5, 6, 7, 8, 9, 10, 11, 12, 13], 1) == 0x79879B55415B33CF
  {
    hide *;
    Short64([1, 2, 3, 4, 5, 6, 7, 8, 9, 10, 11, 12, 13], 1);
    RestOf13(0x27D4EB2F165667D3);
    StepsOf13Bytes1(); StepsOf13Bytes2();
  }

  lemma Short64(data: seq<u8>, seed: u64)
    requires |data| < 32
    ensures Xxh64.Hash(data, seed) == Xxh64Avalanche(Xxh64.ConsumeRest(Add64(Add64(seed, PRIME64_5), |data|), data))
  {
    hide Xxh64Avalanche, Xxh64.ConsumeRest, Xxh64.Converge;
    assert data[0..] == data;
  }

  lemma RestOf13(h: u64)
    ensures Xxh64.ConsumeRest(h, [1, 2, 3, 4, 5, 6, 7, 8, 9, 10, 11, 12, 13])
         == Xxh64.Mix1(Xxh64.Mix4(Xxh64.Mix8(h, 0x807060504030201), 0xC0B0A09), 13)
  {
    var data: seq<u8> := [1, 2, 3, 4, 5, 6, 7, 8, 9, 10, 11, 12, 13];
    var rest: seq<u8> := [9, 10, 11, 12, 13];
    assert data[8..] == rest && rest[4..] == [13] && rest[4..][1..] == [];
    hide Xxh64.Mix8, Xxh64.Mix4, Xxh64.Mix1, At32, At64;
    WordIs(data, 0, 0x807060504030201);
    HalfWordIs(rest, 0, 0xC0B0A09);
  }

  // ---- the default secret -------------------------------------------------------------

  lemma Secret0()
    ensures At64(KSecret(), 0) == 0xBE4BA423396CFEB8 && At64(KSecret(), 8) == 0x1CAD21F72C81017C
  {
    hide At64, ReadLE, KSecret;
    SecretWord(0, 0, 0xBE4BA423396CFEB8); SecretWord(0, 8, 0x1CAD21F72C81017C);
  }

  lemma Secret3()
    ensures At64(KSecret(), 3) == 0x81017CBE4BA42339 && At64(KSecret(), 11) == 0x6DD4DE1CAD21F72C
  {
    hide At64, ReadLE, KSecret;
    SecretWord(0, 3, 0x81017CBE4BA42339); SecretWord(0, 11, 0x6DD4DE1CAD21F72C);
  }

  lemma Secret8()
    ensures At64(KSecret(), 8) == 0x1CAD21F72C81017C && At64(KSecret(), 16) == 0xDB979083E96DD4DE
  {
    hide At64, ReadLE, KSecret;
    SecretWord(0, 8, 0x1CAD21F72C81017C); SecretWord(1, 0, 0xDB979083E96DD4DE);
  }

  lemma Secret11()
    ensures At64(KSecret(), 11) == 0x6DD4DE1CAD21F72C && At64(KSecret(), 19) == 0xA44072DB979083E9
  {
    hide At64, ReadLE, KSecret;
    SecretWord(0, 11, 0x6DD4DE1CAD21F72C); SecretWord(1, 3, 0xA44072DB979083E9);
  }

  lemma Secret16()
    ensures At64(KSecret(), 16) == 0xDB979083E96DD4DE && At64(KSecret(), 24) == 0x1F67B3B7A4A44072
  {
    hide At64, ReadLE, KSecret;
    SecretWord(1, 0, 0xDB979083E96DD4DE); SecretWord(1, 8, 0x1F67B3B7A4A44072);
  }

  lemma Secret19()
    ensures At64(KSecret(), 19) == 0xA44072DB979083E9 && At64(KSecret(), 27) == 0xE679CB1F67B3B7A4
  {
    hide At64, ReadLE, KSecret;
    SecretWord(1, 3, 0xA44072DB979083E9); SecretWord(1, 11, 0xE679CB1F67B3B7A4);
  }

  lemma Secret27()
    ensures At64(KSecret(), 27) == 0xE679CB1F67B3B7A4 && At64(KSecret(), 35) == 0xD05A8278E5C0CC4E
  {
    hide At64, ReadLE, KSecret;
    SecretWord(1, 11, 0xE679CB1F67B3B7A4); SecretWord(2, 3, 0xD05A8278E5C0CC4E);
  }

  lemma Secret32()
    ensures At64(KSecret(), 32) == 0x78E5C0CC4EE679CB && At64(KSecret(), 40) == 0x2172FFCC7DD05A82
  {
    hide At64, ReadLE, KSecret;
    SecretWord(2, 0, 0x78E5C0CC4EE679CB); SecretWord(2, 8, 0x2172FFCC7DD05A82);
  }

  lemma Secret43()
    ensures At64(KSecret(), 43) == 0x4608B82172FFCC7D && At64(KSecret(), 51) == 0x9035E08E2443F774
  {
    hide At64, ReadLE, KSecret;
    SecretWord(2, 11, 0x4608B82172FFCC7D); SecretWord(3, 3, 0x9035E08E2443F774);
  }

  lemma Secret48()
    ensures At64(KSecret(), 48) == 0x8E2443F7744608B8 && At64(KSecret(), 56) == 0x4C263A81E69035E0
  {
    hide At64, ReadLE, KSecret;
    SecretWord(3, 0, 0x8E2443F7744608B8); SecretWord(3, 8, 0x4C263A81E69035E0);
  }

  lemma Secret56()
    ensures At64(KSecret(), 56) == 0x4C263A81E69035E0 && At64(KSecret(), 64) == 0xCB00C391BB52283C
  {
    hide At64, ReadLE, KSecret;
    SecretWord(3, 8, 0x4C263A81E69035E0); SecretWord(4, 0, 0xCB00C391BB52283C);
  }

  lemma Secret59()
    ensures At64(KSecret(), 59) == 0x52283C4C263A81E6 && At64(KSecret(), 67) == 0x65D088CB00C391BB
  {
    hide At64, ReadLE, KSecret;
    SecretWord(3, 11, 0x52283C4C263A81E6); SecretWord(4, 3, 0x65D088CB00C391BB);
  }

  lemma Secret64()
    ensures At64(KSecret(), 64) == 0xCB00C391BB52283C && At64(KSecret(), 72) == 0xA32E531B8B65D088
  {
    hide At64, ReadLE, KSecret;
    SecretWord(4, 0, 0xCB00C391BB52283C); SecretWord(4, 8, 0xA32E531B8B65D088);
  }

  lemma Secret80()
    ensures At64(KSecret(), 80) == 0x4EF90DA297486471 && At64(KSecret(), 88) == 0xD8ACDEA946EF1938
  {
    hide At64, ReadLE, KSecret;
    SecretWord(5, 0, 0x4EF90DA297486471); SecretWord(5, 8, 0xD8ACDEA946EF1938);
  }

  lemma Secret96()
    ensures At64(KSecret(), 96) == 0x3F349CE33F76FAA8 && At64(KSecret(), 104) == 0x1D4F0BC7C7BBDCF9
  {
    hide At64, ReadLE, KSecret;
    SecretWord(6, 0, 0x3F349CE33F76FAA8); SecretWord(6, 8, 0x1D4F0BC7C7BBDCF9);
  }

  lemma Secret103()
    ensures At64(KSecret(), 103) == 0x4F0BC7C7BBDCF93F && At64(KSecret(), 111) == 0x59B4CD4BE0518A1D
  {
    hide At64, ReadLE, KSecret;
    SecretWord(6, 7, 0x4F0BC7C7BBDCF93F); SecretWord(6, 15, 0x59B4CD4BE0518A1D);
  }

  lemma Secret112()
    ensures At64(KSecret(), 112) == 0x3159B4CD4BE0518A && At64(KSecret(), 120) == 0x647378D9C97E9FC8
  {
    hide At64, ReadLE, KSecret;
    SecretWord(7, 0, 0x3159B4CD4BE0518A); SecretWord(7, 8, 0x647378D9C97E9FC8);
  }

  lemma Secret117()
    ensures At64(KSecret(), 117) == 0xD9C97E9FC83159B4 && At64(KSecret(), 125) == 0x3483ACC5EA647378
  {
    hide At64, ReadLE, KSecret;
    SecretWord(7, 5, 0xD9C97E9FC83159B4); SecretWord(7, 13, 0x3483ACC5EA647378);
  }

  lemma Secret119()
    ensures At64(KSecret(), 119) == 0x7378D9C97E9FC831 && At64(KSecret(), 127) == 0xEBD33483ACC5EA64
  {
    hide At64, ReadLE, KSecret;
    SecretWord(7, 7, 0x7378D9C97E9FC831); SecretWord(7, 15, 0xEBD33483ACC5EA64);
  }

  lemma Secret121()
    ensures At64(KSecret(), 121) == 0xEA647378D9C97E9F && At64(KSecret(), 129) == 0xC5C3EBD33483ACC5
  {
    hide At64, ReadLE, KSecret;
    SecretWord(7, 9, 0xEA647378D9C97E9F); SecretWord(8, 1, 0xC5C3EBD33483ACC5);
  }

  lemma Secret133()
    ensures At64(KSecret(), 133) == 0xFAFFA081C5C3EBD3 && At64(KSecret(), 141) == 0xB751DD0D17EB6313
  {
    hide At64, ReadLE, KSecret;
    SecretWord(8, 5, 0xFAFFA081C5C3EBD3); SecretWord(8, 13, 0xB751DD0D17EB6313);
  }

  lemma Secret137()
    ensures At64(KSecret(), 137) == 0x17EB6313FAFFA081 && At64(KSecret(), 145) == 0xD349DAF0B751DD0D
  {
    hide At64, ReadLE, KSecret;
    SecretWord(8, 9, 0x17EB6313FAFFA081); SecretWord(9, 1, 0xD349DAF0B751DD0D);
  }

  lemma Secret149()
    ensures At64(KSecret(), 149) == 0x29265516D349DAF0 && At64(KSecret(), 157) == 0x7D58BE162B9E68D4
  {
    hide At64, ReadLE, KSecret;
    SecretWord(9, 5, 0x29265516D349DAF0); SecretWord(9, 13, 0x7D58BE162B9E68D4);
  }

  lemma Secret153()
    ensures At64(KSecret(), 153) == 0x2B9E68D429265516 && At64(KSecret(), 161) == 0x8FFCA1477D58BE16
  {
    hide At64, ReadLE, KSecret;
    SecretWord(9, 9, 0x2B9E68D429265516); SecretWord(10, 1, 0x8FFCA1477D58BE16);
  }

  lemma Secret165()
    ensures At64(KSecret(), 165) == 0x7AD1B8F88FFCA147 && At64(KSecret(), 173) == 0x958F3ACB45CE31D0
  {
    hide At64, ReadLE, KSecret;
    SecretWord(10, 5, 0x7AD1B8F88FFCA147); SecretWord(10, 13, 0x958F3ACB45CE31D0);
  }

  lemma Secret169()
    ensures At64(KSecret(), 169) == 0x45CE31D07AD1B8F8 && At64(KSecret(), 177) == 0xAF280416958F3ACB
  {
    hide At64, ReadLE, KSecret;
    SecretWord(10, 9, 0x45CE31D07AD1B8F8); SecretWord(10, 17, 0xAF280416958F3ACB);
  }

  lemma XorsOfFolds1()
    ensures Xor64(0xF33DCB8538821920, 0x1550F851424E8855) == 0xE66D33D47ACC9175
    ensures Xor64(0xF457A085FE584ADC, 0x1AF04EA39EF5BF6F) == 0xEEA7EE2660ADF5B3
    ensures Xor64(0x6D5AA2FC2BCB3716, 0xFCBECF79EB2924A) == 0x62914E0BB579A55C
    ensures Xor64(0xD00A1B8A7495B900, 0x2A47FE0BE4F10465) == 0xFA4DE5819064BD65
  {
    hide Xor, Xor64;
    XorIs(0xF33DCB8538821920, 0x1550F851424E8855, 0xE66D33D47ACC9175);
    XorIs(0xF457A085FE584ADC, 0x1AF04EA39EF5BF6F, 0xEEA7EE2660ADF5B3);
    XorIs(0x6D5AA2FC2BCB3716, 0xFCBECF79EB2924A, 0x62914E0BB579A55C);
    XorIs(0xD00A1B8A7495B900, 0x2A47FE0BE4F10465, 0xFA4DE5819064BD65);
  }

  lemma XorsOfFolds2()
    ensures Xor64(0x94008334B8021FE0, 0x81663890057BFF55) == 0x1566BBA4BD79E0B5
    ensures Xor64(0x42C930FCD52401B8, 0x42D777868B0194EF) == 0x1E477A5E259557
    ensures Xor64(0xC56ECCECAADA2D68, 0x73C79EABE45106E) == 0xC252B506149F3D06
    ensures Xor64(0x735B08EB15D069D0, 0x135D4D38727F0B1E) == 0x600645D367AF62CE
  {
    hide Xor, Xor64;
    XorIs(0x94008334B8021FE0, 0x81663890057BFF55, 0x1566BBA4BD79E0B5);
    XorIs(0x42C930FCD52401B8, 0x42D777868B0194EF, 0x1E477A5E259557);
    XorIs(0xC56ECCECAADA2D68, 0x73C79EABE45106E, 0xC252B506149F3D06);
    XorIs(0x735B08EB15D069D0, 0x135D4D38727F0B1E, 0x600645D367AF62CE);
  }

  lemma XorsOfFolds3()
    ensures Xor64(0x55F5FFE26D8B0CCC, 0x3758E74611615061) == 0x62AD18A47CEA5CAD
    ensures Xor64(0x9725695B61CB1044, 0x93E00BFAD561C0B2) == 0x4C562A1B4AAD0F6
    ensures Xor64(0x6D3B905C63533223, 0x1BB2EC20C571DF28) == 0x76897C7CA622ED0B
    ensures Xor64(0xC73970FC7D1BFD24, 0x6A5F34376952E257) == 0xAD6644CB14491F73
  {
    hide Xor, Xor64;
    XorIs(0x55F5FFE26D8B0CCC, 0x3758E74611615061, 0x62AD18A47CEA5CAD);
    XorIs(0x9725695B61CB1044, 0x93E00BFAD561C0B2, 0x4C562A1B4AAD0F6);
    XorIs(0x6D3B905C63533223, 0x1BB2EC20C571DF28, 0x76897C7CA622ED0B);
    XorIs(0xC73970FC7D1BFD24, 0x6A5F34376952E257, 0xAD6644CB14491F73);
  }

  function SecretFold(s: nat): u64
    requires s + 16 <= 192
  {
    Mul128Fold64(At64(KSecret(), s), At64(KSecret(), s + 8))
  }

  lemma Folds1()
    ensures SecretFold(0) == 0xE66D33D47ACC9175
    ensures SecretFold(16) == 0xEEA7EE2660ADF5B3
    ensures SecretFold(32) == 0x62914E0BB579A55C
    ensures SecretFold(48) == 0xFA4DE5819064BD65
  {
    hide Xor64, KSecret, At64, Mul128Fold64;
    Secret0(); Secret16(); Secret32(); Secret48();
    XorsOfFolds1();
    FoldIs(0xBE4BA423396CFEB8, 0x1CAD21F72C81017C, 0xF33DCB8538821920, 0x1550F851424E8855, 0xE66D33D47ACC9175);
    FoldIs(0xDB979083E96DD4DE, 0x1F67B3B7A4A44072, 0xF457A085FE584ADC, 0x1AF04EA39EF5BF6F, 0xEEA7EE2660ADF5B3);
    FoldIs(0x78E5C0CC4EE679CB, 0x2172FFCC7DD05A82, 0x6D5AA2FC2BCB3716, 0xFCBECF79EB2924A, 0x62914E0BB579A55C);
    FoldIs(0x8E2443F7744608B8, 0x4C263A81E69035E0, 0xD00A1B8A7495B900, 0x2A47FE0BE4F10465, 0xFA4DE5819064BD65);
  }

  lemma Folds2()
    ensures SecretFold(64) == 0x1566BBA4BD79E0B5
    ensures SecretFold(80) == 0x1E477A5E259557
    ensures SecretFold(96) == 0xC252B506149F3D06
    ensures SecretFold(112) == 0x600645D367AF62CE
  {
    hide Xor64, KSecret, At64, Mul128Fold64;
    Secret64(); Secret80(); Secret96(); Secret112();
    XorsOfFolds2();
    FoldIs(0xCB00C391BB52283C, 0xA32E531B8B65D088, 0x94008334B8021FE0, 0x81663890057BFF55, 0x1566BBA4BD79E0B5);
    FoldIs(0x4EF90DA297486471, 0xD8ACDEA946EF1938, 0x42C930FCD52401B8, 0x42D777868B0194EF, 0x1E477A5E259557);
    FoldIs(0x3F349CE33F76FAA8, 0x1D4F0BC7C7BBDCF9, 0xC56ECCECAADA2D68, 0x73C79EABE45106E, 0xC252B506149F3D06);
    FoldIs(0x3159B4CD4BE0518A, 0x647378D9C97E9FC8, 0x735B08EB15D069D0, 0x135D4D38727F0B1E, 0x600645D367AF62CE);
  }

  lemma Folds3()
    ensures SecretFold(3) == 0x62AD18A47CEA5CAD
    ensures SecretFold(19) == 0x4C562A1B4AAD0F6
    ensures SecretFold(103) == 0x76897C7CA622ED0B
    ensures SecretFold(119) == 0xAD6644CB14491F73
  {
    hide Xor64, KSecret, At64, Mul128Fold64;
    Secret3(); Secret19(); Secret103(); Secret119();
    XorsOfFolds3();
    FoldIs(0x81017CBE4BA42339, 0x6DD4DE1CAD21F72C, 0x55F5FFE26D8B0CCC, 0x3758E74611615061, 0x62AD18A47CEA5CAD);
    FoldIs(0xA44072DB979083E9, 0xE679CB1F67B3B7A4, 0x9725695B61CB1044, 0x93E00BFAD561C0B2, 0x4C562A1B4AAD0F6);
    FoldIs(0x4F0BC7C7BBDCF93F, 0x59B4CD4BE0518A1D, 0x6D3B905C63533223, 0x1BB2EC20C571DF28, 0x76897C7CA622ED0B);
    FoldIs(0x7378D9C97E9FC831, 0xEBD33483ACC5EA64, 0xC73970FC7D1BFD24, 0x6A5F34376952E257, 0xAD6644CB14491F73);
  }

  // ---- XXH3, 17 to 240 bytes ----------------------------------------------------------

  lemma ZeroMix(n: nat, i: nat, s: nat)
    requires i + 16 <= n && s + 16 <= 192
    ensures Mix16B(Zeros(n), i, KSecret(), s, 0) == SecretFold(s)
  {
    hide KSecret, Zeros, Mix16B, At64, Mul128Fold64;
    ZeroWord(n, i); ZeroWord(n, i + 8);
    SecretSize();
    SecretMix(Zeros(n), i, KSecret(), s);
  }

  lemma SecretSize()
    ensures |KSecret()| == 192
  {
  }

  lemma SecretMix(input: seq<u8>, i: nat, secret: seq<u8>, s: nat)
    requires i + 16 <= |input| && s + 16 <= |secret| && At64(input, i) == 0 && At64(input, i + 8) == 0
    ensures Mix16B(input, i, secret, s, 0) == Mul128Fold64(At64(secret, s), At64(secret, s + 8))
  {
    hide At64, Xor64, Mul128Fold64, Add64, Sub64;
    NoSeed(At64(secret, s)); NoSeed(At64(secret, s + 8));
  }

  lemma NoSeed(a: u64)
    ensures Add64(a, 0) == a && Sub64(a, 0) == a && Xor64(0, a) == a
  {
    hide Xor64;
    XorWithZero(a);
  }

  lemma ZeroMix32(acc: U128, n: nat, i: nat, j: nat, s: nat)
    requires i + 16 <= n && j + 16 <= n && s + 32 <= 192
    ensures Mix32B(acc, Zeros(n), i, j, KSecret(), s, 0)
         == U128(Add64(acc.low, SecretFold(s)), Add64(acc.high, SecretFold(s + 16)))
  {
    hide KSecret, At64, Zeros, Xor64, SecretFold, Mix16B;
    SecretSize();
    ZeroMix(n, i, s); ZeroMix(n, j, s + 16);
    ZeroWord(n, i); ZeroWord(n, i + 8); ZeroWord(n, j); ZeroWord(n, j + 8);
    XorWithZero(Add64(acc.low, SecretFold(s))); XorWithZero(Add64(acc.high, SecretFold(s + 16)));
  }

  /** A pair of mixes of XXH3_len_17to128 on zero bytes. */
  lemma ZeroEnds(acc: u64, k: nat, f: u64, g: u64, sum: u64, r: u64)
    requires k < 4 && SecretFold(32 * k) == f && SecretFold(32 * k + 16) == g
    requires Add64(acc, f) == sum && Add64(sum, g) == r
    ensures MixEnds(acc, Zeros(128), k, KSecret(), 0) == r
  {
    hide KSecret, Zeros, Mix16B, SecretFold, Add64;
    SecretSize();
    ZeroMix(128, 16 * k, 32 * k); ZeroMix(128, 128 - 16 * (k + 1), 32 * k + 16);
  }

  lemma ZeroEnds128(low: u64, high: u64, k: nat, f: u64, g: u64, l: u64, h: u64)
    requires k < 4 && SecretFold(32 * k) == f && SecretFold(32 * k + 16) == g
    requires Add64(low, f) == l && Add64(high, g) == h
    ensures MixEnds128(U128(low, high), Zeros(128), k, KSecret(), 0) == U128(l, h)
  {
    hide KSecret, Zeros, Mix32B, SecretFold, Add64;
    SecretSize();
    ZeroMix32(U128(low, high), 128, 16 * k, 128 - 16 * (k + 1), 32 * k);
  }

  lemma FourPairs(input: seq<u8>, secret: seq<u8>)
    requires |input| == 128 && |secret| >= SECRET_SIZE_MIN
    ensures var a := MixEnds(MixEnds(Mul64(128, PRIME64_1), input, 3, secret, 0), input, 2, secret, 0);
            Len17To128Hash64(input, secret, 0)
            == Avalanche(MixEnds(MixEnds(a, input, 1, secret, 0), input, 0, secret, 0))
    ensures var a := MixEnds128(MixEnds128(U128(Mul64(128, PRIME64_1), 0), input, 3, secret, 0), input, 2, secret, 0);
            Len17To128Hash128(input, secret, 0)
            == FinishMid128(MixEnds128(MixEnds128(a, input, 1, secret, 0), input, 0, secret, 0), 128, 0)
  {
    hide MixEnds, MixEnds128, Avalanche, FinishMid128, Mul64;
  }

  lemma Product128()
    ensures Mul64(128, PRIME64_1) == 0x1BBCD8C2F5E54380
  {
  }

  lemma MixesOf128Zeros()
    ensures Len17To128Hash64(Zeros(128), KSecret(), 0) == Avalanche(0x858F2C43AF2C4349)
  {
    hide KSecret, Zeros, MixEnds, MixEnds128, Avalanche, FinishMid128, Len17To128Hash64, Len17To128Hash128,
         SecretFold, Mul64;
    Folds1(); Folds2(); Product128();
    ZeroEnds(0x1BBCD8C2F5E54380, 3, 0xC252B506149F3D06, 0x600645D367AF62CE, 0xDE0F8DC90A848086, 0x3E15D39C7233E354);
    ZeroEnds(0x3E15D39C7233E354, 2, 0x1566BBA4BD79E0B5, 0x1E477A5E259557, 0x537C8F412FADC409, 0x539AD6BB8DD35960);
    ZeroEnds(0x539AD6BB8DD35960, 1, 0x62914E0BB579A55C, 0xFA4DE5819064BD65, 0xB62C24C7434CFEBC, 0xB07A0A48D3B1BC21);
    ZeroEnds(0xB07A0A48D3B1BC21, 0, 0xE66D33D47ACC9175, 0xEEA7EE2660ADF5B3, 0x96E73E1D4E7E4D96, 0x858F2C43AF2C4349);
    FourPairs(Zeros(128), KSecret());
  }

  lemma Mixes128Of128Zeros()
    ensures Len17To128Hash128(Zeros(128), KSecret(), 0)
         == FinishMid128(U128(0x3C74CB4DF844980C, 0x491A60F5B6E7AB3D), 128, 0)
  {
    hide KSecret, Zeros, MixEnds, MixEnds128, Avalanche, FinishMid128, Len17To128Hash64, Len17To128Hash128,
         SecretFold, Mul64;
    Folds1(); Folds2(); Product128();
    ZeroEnds128(0x1BBCD8C2F5E54380, 0x0, 3, 0xC252B506149F3D06, 0x600645D367AF62CE, 0xDE0F8DC90A848086,
                0x600645D367AF62CE);
    ZeroEnds128(0xDE0F8DC90A848086, 0x600645D367AF62CE, 2, 0x1566BBA4BD79E0B5, 0x1E477A5E259557, 0xF376496DC7FE613B,
                0x60248D4DC5D4F825);
    ZeroEnds128(0xF376496DC7FE613B, 0x60248D4DC5D4F825, 1, 0x62914E0BB579A55C, 0xFA4DE5819064BD65, 0x560797797D780697,
                0x5A7272CF5639B58A);
    ZeroEnds128(0x560797797D780697, 0x5A7272CF5639B58A, 0, 0xE66D33D47ACC9175, 0xEEA7EE2660ADF5B3, 0x3C74CB4DF844980C,
                0x491A60F5B6E7AB3D);
    FourPairs(Zeros(128), KSecret());
  }

  lemma XorsOf128Zeros()
    ensures Xor64(0x858F2C43AF2C4349, 0x42C7962) == 0x858F2C43AB003A2B
    ensures Xor64(0x93C29F277F3E6D3, 0x93C29F2) == 0x93C29F27ECFCF21
    ensures Xor64(0x33242A654203FC6B, 0x1992153) == 0x33242A65439ADD38
    ensures Xor64(0x2C3B08F90B38A378, 0x2C3B08F9) == 0x2C3B08F92703AB81
  {
    hide Xor, Xor64;
    XorIs(0x858F2C43AF2C4349, 0x42C7962, 0x858F2C43AB003A2B);
    XorIs(0x93C29F277F3E6D3, 0x93C29F2, 0x93C29F27ECFCF21);
    XorIs(0x33242A654203FC6B, 0x1992153, 0x33242A65439ADD38);
    XorIs(0x2C3B08F90B38A378, 0x2C3B08F9, 0x2C3B08F92703AB81);
  }

  lemma AvalanchesOf128Zeros()
    ensures Avalanche(0x858F2C43AF2C4349) == 0x93C29F27ECFCF21
    ensures Avalanche(0x858F2C43AF2C4349) == 0x93C29F27ECFCF21 && Avalanche(0x33242A654203FC6B) == 0x2C3B08F92703AB81
  {
    hide Xor64, Avalanche;
    XorsOf128Zeros();
    AvalancheIs(0x858F2C43AF2C4349, 0x42C7962, 0x858F2C43AB003A2B, 0x93C29F277F3E6D3, 0x93C29F2, 0x93C29F27ECFCF21);
    AvalancheIs(0x858F2C43AF2C4349, 0x42C7962, 0x858F2C43AB003A2B, 0x93C29F277F3E6D3, 0x93C29F2, 0x93C29F27ECFCF21);
    AvalancheIs(0x33242A654203FC6B, 0x1992153, 0x33242A65439ADD38, 0x2C3B08F90B38A378, 0x2C3B08F9,
                0x2C3B08F92703AB81);
  }

  lemma FinishIs(low: u64, high: u64, p: u64, q: u64, r: u64, sum: u64, h: u64, x: u64, y: u64, len: u64, seed: u64)
    requires Mul64(low, PRIME64_1) == p && Mul64(high, PRIME64_4) == q && Mul64(Sub64(len, seed), PRIME64_2) == r
    requires Add64(low, high) == sum && Add64(Add64(p, q), r) == h && Avalanche(sum) == x && Avalanche(h) == y
    ensures FinishMid128(U128(low, high), len, seed) == U128(x, Sub64(0, y))
  {
    hide Mul64, Add64, Sub64, Avalanche;
  }

  /** The XXH3 hashes of 128 zero bytes. */
  lemma HashesOf128Zeros()
    ensures Hash64(Plain, Zeros(128)) == 0x93C29F27ECFCF21
    ensures Hash128(Plain, Zeros(128)) == U128(0x93C29F27ECFCF21, 0xD3C4F706D8FC547F)
  {
    hide KSecret, Zeros, Avalanche, FinishMid128, Len17To128Hash64, Len17To128Hash128;
    AvalanchesOf128Zeros();
    MixesOf128Zeros(); Mixes128Of128Zeros();
    FinishIs(0x3C74CB4DF844980C, 0x491A60F5B6E7AB3D, 0x52701245DB29A654, 0x875CF98B7C64AE97, 0x59571E93EA75A780,
             0x858F2C43AF2C4349, 0x33242A654203FC6B, 0x93C29F27ECFCF21, 0x2C3B08F92703AB81, 128, 0);
  }

  /** One more mix of XXH3_len_129to240 on zero bytes. */
  lemma ZeroRun(secret: seq<u8>, start: u64, i: nat, s: nat, k: nat, x: u64, f: u64, y: u64)
    requires secret == KSecret() && |secret| == 192 && i + 16 * (k + 1) <= 160 && s + 16 * (k + 1) <= 192
    requires MixRun(start, Zeros(160), i, secret, s, 0, k) == x && SecretFold(s + 16 * k) == f && Add64(x, f) == y
    ensures MixRun(start, Zeros(160), i, secret, s, 0, k + 1) == y
  {
    hide KSecret, Zeros, Mix16B, SecretFold, Add64;
    ZeroMix(160, i + 16 * k, s + 16 * k);
  }

  lemma ZeroRun128(secret: seq<u8>, start: U128, i: nat, s: nat, k: nat, low: u64, high: u64,
                   f: u64, g: u64, l: u64, h: u64)
    requires secret == KSecret() && |secret| == 192 && i + 32 * (k + 1) <= 160 && s + 32 * (k + 1) <= 192
    requires MixRun128(start, Zeros(160), i, secret, s, 0, k) == U128(low, high)
    requires SecretFold(s + 32 * k) == f && SecretFold(s + 32 * k + 16) == g
    requires Add64(low, f) == l && Add64(high, g) == h
    ensures MixRun128(start, Zeros(160), i, secret, s, 0, k + 1) == U128(l, h)
  {
    hide KSecret, Zeros, Mix32B, SecretFold, Add64;
    ZeroMix32(U128(low, high), 160, i + 32 * k, i + 32 * k + 16, s + 32 * k);
  }

  lemma Product160()
    ensures Mul64(160, PRIME64_1) == 0xE2AC0EF3B35E9460
  {
  }

  lemma RunStarts(secret: seq<u8>, start: u64, start128: U128, i: nat, s: nat)
    requires i <= 160 && s <= |secret|
    ensures MixRun(start, Zeros(160), i, secret, s, 0, 0) == start
    ensures MixRun128(start128, Zeros(160), i, secret, s, 0, 0) == start128
  {
  }

  lemma FirstRunOf160Zeros()
    ensures MixRun(0xE2AC0EF3B35E9460, Zeros(160), 0, KSecret(), 0, 0, 8) == 0x4C7E62746CA59429
  {
    var secret := KSecret();
    hide KSecret, Zeros, MixRun, MixRun128, Mix16B, Mix32B, Avalanche, SecretFold, Mul64;
    SecretSize();
    RunStarts(secret, 0xE2AC0EF3B35E9460, U128(0, 0), 0, 0);
    Folds1(); Folds2();
    ZeroRun(secret, 0xE2AC0EF3B35E9460, 0, 0, 0, 0xE2AC0EF3B35E9460, 0xE66D33D47ACC9175, 0xC91942C82E2B25D5);
    ZeroRun(secret, 0xE2AC0EF3B35E9460, 0, 0, 1, 0xC91942C82E2B25D5, 0xEEA7EE2660ADF5B3, 0xB7C130EE8ED91B88);
    ZeroRun(secret, 0xE2AC0EF3B35E9460, 0, 0, 2, 0xB7C130EE8ED91B88, 0x62914E0BB579A55C, 0x1A527EFA4452C0E4);
    ZeroRun(secret, 0xE2AC0EF3B35E9460, 0, 0, 3, 0x1A527EFA4452C0E4, 0xFA4DE5819064BD65, 0x14A0647BD4B77E49);
    ZeroRun(secret, 0xE2AC0EF3B35E9460, 0, 0, 4, 0x14A0647BD4B77E49, 0x1566BBA4BD79E0B5, 0x2A07202092315EFE);
    ZeroRun(secret, 0xE2AC0EF3B35E9460, 0, 0, 5, 0x2A07202092315EFE, 0x1E477A5E259557, 0x2A25679AF056F455);
    ZeroRun(secret, 0xE2AC0EF3B35E9460, 0, 0, 6, 0x2A25679AF056F455, 0xC252B506149F3D06, 0xEC781CA104F6315B);
    ZeroRun(secret, 0xE2AC0EF3B35E9460, 0, 0, 7, 0xEC781CA104F6315B, 0x600645D367AF62CE, 0x4C7E62746CA59429);
  }

  lemma SecondRunOf160Zeros()
    ensures MixRun(0x623DD9CB1D0708A1, Zeros(160), 128, KSecret(), 3, 0, 2) == 0xC9B055114E9C3644
  {
    var secret := KSecret();
    hide KSecret, Zeros, MixRun, MixRun128, Mix16B, Mix32B, Avalanche, SecretFold, Mul64;
    SecretSize();
    RunStarts(secret, 0x623DD9CB1D0708A1, U128(0, 0), 128, 3);
    Folds3();
    ZeroRun(secret, 0x623DD9CB1D0708A1, 128, 3, 0, 0x623DD9CB1D0708A1, 0x62AD18A47CEA5CAD, 0xC4EAF26F99F1654E);
    ZeroRun(secret, 0x623DD9CB1D0708A1, 128, 3, 1, 0xC4EAF26F99F1654E, 0x4C562A1B4AAD0F6, 0xC9B055114E9C3644);
  }

  lemma FirstRun128Of160Zeros()
    ensures MixRun128(U128(0xE2AC0EF3B35E9460, 0), Zeros(160), 0, KSecret(), 0, 0, 4)
         == U128(0x364017EB5BDE8EC, 0x491A60F5B6E7AB3D)
  {
    var secret := KSecret();
    hide KSecret, Zeros, MixRun, MixRun128, Mix16B, Mix32B, Avalanche, SecretFold, Mul64;
    SecretSize();
    RunStarts(secret, 0, U128(0xE2AC0EF3B35E9460, 0), 0, 0);
    Folds1(); Folds2();
    ZeroRun128(secret, U128(0xE2AC0EF3B35E9460, 0), 0, 0, 0, 0xE2AC0EF3B35E9460, 0x0, 0xE66D33D47ACC9175,
               0xEEA7EE2660ADF5B3, 0xC91942C82E2B25D5, 0xEEA7EE2660ADF5B3);
    ZeroRun128(secret, U128(0xE2AC0EF3B35E9460, 0), 0, 0, 1, 0xC91942C82E2B25D5, 0xEEA7EE2660ADF5B3,
               0x62914E0BB579A55C, 0xFA4DE5819064BD65, 0x2BAA90D3E3A4CB31, 0xE8F5D3A7F112B318);
    ZeroRun128(secret, U128(0xE2AC0EF3B35E9460, 0), 0, 0, 2, 0x2BAA90D3E3A4CB31, 0xE8F5D3A7F112B318,
               0x1566BBA4BD79E0B5, 0x1E477A5E259557, 0x41114C78A11EABE6, 0xE9141B224F38486F);
    ZeroRun128(secret, U128(0xE2AC0EF3B35E9460, 0), 0, 0, 3, 0x41114C78A11EABE6, 0xE9141B224F38486F,
               0xC252B506149F3D06, 0x600645D367AF62CE, 0x364017EB5BDE8EC, 0x491A60F5B6E7AB3D);
  }

  lemma SecondRun128Of160Zeros()
    ensures MixRun128(U128(0x6D370AC552F89D6A, 0x5D08FE2413FDA44E), Zeros(160), 128, KSecret(), 3, 0, 1)
         == U128(0xCFE42369CFE2FA17, 0x61CE60C5C8A87544)
  {
    var secret := KSecret();
    hide KSecret, Zeros, MixRun, MixRun128, Mix16B, Mix32B, Avalanche, SecretFold, Mul64;
    SecretSize();
    RunStarts(secret, 0, U128(0x6D370AC552F89D6A, 0x5D08FE2413FDA44E), 128, 3);
    Folds3();
    ZeroRun128(secret, U128(0x6D370AC552F89D6A, 0x5D08FE2413FDA44E), 128, 3, 0, 0x6D370AC552F89D6A,
               0x5D08FE2413FDA44E, 0x62AD18A47CEA5CAD, 0x4C562A1B4AAD0F6, 0xCFE42369CFE2FA17, 0x61CE60C5C8A87544);
  }

  lemma XorsOf160Zeros1()
    ensures Xor64(0x4C7E62746CA59429, 0x263F313) == 0x4C7E62746EC6673A
    ensures Xor64(0x623DD9CB7F3AD16A, 0x623DD9CB) == 0x623DD9CB1D0708A1
    ensures Xor64(0x771699DC62E555B7, 0x3B8B4CE) == 0x771699DC615DE179
    ensures Xor64(0xA6B0123D32E17FB1, 0xA6B0123D) == 0xA6B0123D94516D8C
    ensures Xor64(0x364017EB5BDE8EC, 0x1B200B) == 0x364017EB5A6C8E7
    ensures Xor64(0x6D370AC53FCF97AF, 0x6D370AC5) == 0x6D370AC552F89D6A
  {
    hide Xor, Xor64;
    XorIs(0x4C7E62746CA59429, 0x263F313, 0x4C7E62746EC6673A);
    XorIs(0x623DD9CB7F3AD16A, 0x623DD9CB, 0x623DD9CB1D0708A1);
    XorIs(0x771699DC62E555B7, 0x3B8B4CE, 0x771699DC615DE179);
    XorIs(0xA6B0123D32E17FB1, 0xA6B0123D, 0xA6B0123D94516D8C);
    XorIs(0x364017EB5BDE8EC, 0x1B200B, 0x364017EB5A6C8E7);
    XorIs(0x6D370AC53FCF97AF, 0x6D370AC5, 0x6D370AC552F89D6A);
  }

  lemma XorsOf160Zeros2()
    ensures Xor64(0x491A60F5B6E7AB3D, 0x248D307) == 0x491A60F5B4AF783A
    ensures Xor64(0x5D08FE244EF55A6A, 0x5D08FE24) == 0x5D08FE2413FDA44E
    ensures Xor64(0x55A2457752F77BD9, 0x2AD122B) == 0x55A24577505A69F2
    ensures Xor64(0xD50766EA03026E62, 0xD50766EA) == 0xD50766EAD6050888
    ensures Xor64(0x5AD811D25A85AD13, 0x2D6C08E) == 0x5AD811D258536D9D
    ensures Xor64(0xC6379D7CAAFD2B5, 0xC6379D7) == 0xC6379D7C6CCAB62
  {
    hide Xor, Xor64;
    XorIs(0x491A60F5B6E7AB3D, 0x248D307, 0x491A60F5B4AF783A);
    XorIs(0x5D08FE244EF55A6A, 0x5D08FE24, 0x5D08FE2413FDA44E);
    XorIs(0x55A2457752F77BD9, 0x2AD122B, 0x55A24577505A69F2);
    XorIs(0xD50766EA03026E62, 0xD50766EA, 0xD50766EAD6050888);
    XorIs(0x5AD811D25A85AD13, 0x2D6C08E, 0x5AD811D258536D9D);
    XorIs(0xC6379D7CAAFD2B5, 0xC6379D7, 0xC6379D7C6CCAB62);
  }

  lemma AvalanchesOf160Zeros()
    ensures Avalanche(0x4C7E62746CA59429) == 0x623DD9CB1D0708A1 && Avalanche(0x771699DC62E555B7) == 0xA6B0123D94516D8C
    ensures Avalanche(0x364017EB5BDE8EC) == 0x6D370AC552F89D6A && Avalanche(0x491A60F5B6E7AB3D) == 0x5D08FE2413FDA44E
    ensures Avalanche(0x55A2457752F77BD9) == 0xD50766EAD6050888 && Avalanche(0x5AD811D25A85AD13) == 0xC6379D7C6CCAB62
  {
    hide Xor64, Avalanche;
    XorsOf160Zeros1(); XorsOf160Zeros2();
    AvalancheIs(0x4C7E62746CA59429, 0x263F313, 0x4C7E62746EC6673A, 0x623DD9CB7F3AD16A, 0x623DD9CB,
                0x623DD9CB1D0708A1);
    AvalancheIs(0x771699DC62E555B7, 0x3B8B4CE, 0x771699DC615DE179, 0xA6B0123D32E17FB1, 0xA6B0123D,
                0xA6B0123D94516D8C);
    AvalancheIs(0x364017EB5BDE8EC, 0x1B200B, 0x364017EB5A6C8E7, 0x6D370AC53FCF97AF, 0x6D370AC5, 0x6D370AC552F89D6A);
    AvalancheIs(0x491A60F5B6E7AB3D, 0x248D307, 0x491A60F5B4AF783A, 0x5D08FE244EF55A6A, 0x5D08FE24,
                0x5D08FE2413FDA44E);
    AvalancheIs(0x55A2457752F77BD9, 0x2AD122B, 0x55A24577505A69F2, 0xD50766EA03026E62, 0xD50766EA,
                0xD50766EAD6050888);
    AvalancheIs(0x5AD811D25A85AD13, 0x2D6C08E, 0x5AD811D258536D9D, 0xC6379D7CAAFD2B5, 0xC6379D7, 0xC6379D7C6CCAB62);
  }

  /** The XXH3 hashes of 160 zero bytes. */
  lemma Hash64Of160Zeros()
    ensures Hash64(Plain, Zeros(160)) == 0xA6B0123D94516D8C
  {
    hide KSecret, Zeros, MixRun, Mix16B, Avalanche, SecretFold, Mul64;
    SecretSize(); Product160();
    FirstRunOf160Zeros(); SecondRunOf160Zeros(); AvalanchesOf160Zeros();
    Folds3();
    ZeroMix(160, 144, 119);
  }

  lemma FinishOf160Zeros()
    ensures FinishMid128(U128(0x466D9FE67605E722, 0xF34A590DCF194B7), 160, 0)
         == U128(0xD50766EAD6050888, 0xF39C86283933549E)
  {
    hide Avalanche, FinishMid128;
    AvalanchesOf160Zeros();
    assert Sub64(160, 0) == 160;
    FinishIs(0x466D9FE67605E722, 0xF34A590DCF194B7, 0x307C74AABBB3B6EE, 0x7AAEB6EEB9BEE4C5, 0xAFACE638E5131160,
             0x55A2457752F77BD9, 0x5AD811D25A85AD13, 0xD50766EAD6050888, 0xC6379D7C6CCAB62, 160, 0);
  }

  lemma Hash128Of160Zeros()
    ensures Hash128(Plain, Zeros(160)) == U128(0xD50766EAD6050888, 0xF39C86283933549E)
  {
    hide KSecret, Zeros, MixRun128, Mix32B, Avalanche, FinishMid128, SecretFold, Mul64;
    SecretSize(); Product160();
    FirstRun128Of160Zeros(); SecondRun128Of160Zeros(); AvalanchesOf160Zeros();
    Folds3();
    ZeroMix32(U128(0xCFE42369CFE2FA17, 0x61CE60C5C8A87544), 160, 144, 128, 103);
    assert Sub64(0, 0) == 0;
    FinishOf160Zeros();
  }

  // ---- XXH3, 256 bytes ----------------------------------------------------------------

  /** What a stripe of zero bytes adds to a lane: the product of the halves of a word of the secret. */
  function Gain(s: nat): u64
    requires s + 8 <= 192
  {
    var w := At64(KSecret(), s);
    Mul32To64(Lo32(w), Hi32(w))
  }

  lemma ZeroStripe(acc: seq<u64>, stripe: seq<u8>, secret: seq<u8>, s: nat, i: nat)
    requires |acc| == 8 && |stripe| == 64 && stripe == Zeros(64) && i < 8
    requires secret == KSecret() && |secret| == 192 && s + 64 <= 192
    ensures Accumulate512(acc, stripe, secret[s..])[i] == Add64(acc[i], Gain(s + 8 * i))
  {
    hide KSecret, Zeros, Mul32To64, ReadLE64, Xor64, Add64;
    ZeroWord(64, 8 * i); ZeroWord(64, 8 * Neighbour(i));
    assert secret[s..][8 * i..] == secret[s + 8 * i..];
    NoSeed(acc[i]); NoSeed(At64(secret, s + 8 * i));
  }

  lemma LaneOf256Zeros(i: nat)
    requires i < 8
    ensures LongAcc(Zeros(256), KSecret())[i]
         == Add64(Add64(Add64(Add64(InitAcc()[i], Gain(8 * i)), Gain(8 * i + 8)), Gain(8 * i + 16)), Gain(8 * i + 121))
  {
    var data, secret := Zeros(256), KSecret();
    ZeroSlices();
    hide KSecret, Zeros, InitAcc, Accumulate512, Gain, Add64, LongAcc;
    SecretSize();
    FourStripes(data, secret);
    var a0 := InitAcc();
    var a1 := Accumulate512(a0, Stripe(data, 0), secret[0..]);
    var a2 := Accumulate512(a1, Stripe(data, 1), secret[8..]);
    var a3 := Accumulate512(a2, Stripe(data, 2), secret[16..]);
    ZeroStripe(a0, Stripe(data, 0), secret, 0, i);
    ZeroStripe(a1, Stripe(data, 1), secret, 8, i);
    ZeroStripe(a2, Stripe(data, 2), secret, 16, i);
    ZeroStripe(a3, data[192..], secret, 121, i);
  }

  lemma FourStripes(data: seq<u8>, secret: seq<u8>)
    requires |data| == 256 && |secret| == 192
    ensures var a1 := Accumulate512(InitAcc(), Stripe(data, 0), secret[0..]);
            var a2 := Accumulate512(a1, Stripe(data, 1), secret[8..]);
            var a3 := Accumulate512(a2, Stripe(data, 2), secret[16..]);
            LongAcc(data, secret) == Accumulate512(a3, data[192..], secret[121..])
  {
    hide InitAcc, Accumulate512, Stripe;
    assert Fold(data, secret, 0) == InitAcc();
    assert Fold(data, secret, 1) == Accumulate512(InitAcc(), Stripe(data, 0), secret[0..]);
    assert Fold(data, secret, 3)
        == Accumulate512(Accumulate512(Fold(data, secret, 1), Stripe(data, 1), secret[8..]),
                         Stripe(data, 2), secret[16..]);
  }

  lemma ZeroSlices()
    ensures Stripe(Zeros(256), 0) == Zeros(64) && Stripe(Zeros(256), 1) == Zeros(64)
    ensures Stripe(Zeros(256), 2) == Zeros(64) && Zeros(256)[192..] == Zeros(64)
  {
  }

  lemma Gains1()
    ensures Gain(0) == 0x2AAFDCCCDCFCB328
    ensures Gain(8) == 0x4FC353F22756AA4
    ensures Gain(16) == 0xC83B28A7B3E2CD9A
    ensures Gain(24) == 0x143295784657C77E
    ensures Gain(32) == 0x2542D8ADD5984DC4
    ensures Gain(40) == 0x10706029DC139D98
  {
    hide KSecret, At64;
    Secret0(); Secret16(); Secret32();
  }

  lemma Gains2()
    ensures Gain(48) == 0x408F518DCDBA9188
    ensures Gain(56) == 0x44953E175A1FE5E0
    ensures Gain(64) == 0x948AB501422E7DFC
    ensures Gain(72) == 0x58DB0D52C6C91658
    ensures Gain(121) == 0xC767A2AE6670C788
    ensures Gain(129) == 0x289184A05B2F3D5F
  {
    hide KSecret, At64;
    Secret48(); Secret64(); Secret121();
  }

  lemma Gains3()
    ensures Gain(137) == 0x1773C1376975CC93
    ensures Gain(145) == 0x974D5C5152B14E30
    ensures Gain(153) == 0x702E6CCDBE36638
    ensures Gain(161) == 0x46804480FAD08E1A
    ensures Gain(169) == 0x217D73839E5DC180
    ensures Gain(177) == 0x665449F50BF23972
  {
    hide KSecret, At64;
    Secret137(); Secret153(); Secret169();
  }

  lemma LaneIs(i: nat, init: u64, a: u64, b: u64, c: u64, d: u64, w: u64, x: u64, y: u64, z: u64)
    requires i < 8 && InitAcc()[i] == init
    requires Gain(8 * i) == a && Gain(8 * i + 8) == b && Gain(8 * i + 16) == c && Gain(8 * i + 121) == d
    requires Add64(init, a) == w && Add64(w, b) == x && Add64(x, c) == y && Add64(y, d) == z
    ensures LongAcc(Zeros(256), KSecret())[i] == z
  {
    hide KSecret, Zeros, InitAcc, LongAcc, Gain, Add64;
    LaneOf256Zeros(i);
  }

  lemma LanesOf256Zeros1()
    ensures var acc := LongAcc(Zeros(256), KSecret());
            acc[0] == 0xBF4EDD62DC78612B && acc[1] == 0xA832F1B0FDCB07A2
            && acc[2] == 0xDBD70642611D9ABE && acc[3] == 0xF7899252E8EC7B03
  {
    hide KSecret, Zeros, LongAcc, Gain;
    Gains1(); Gains2(); Gains3();
    LaneIs(0, 0xC2B2AE3D, 0x2AAFDCCCDCFCB328, 0x4FC353F22756AA4, 0xC83B28A7B3E2CD9A, 0xC767A2AE6670C788,
           0x2AAFDCCD9FAF6165, 0x2FAC120CC224CC09, 0xF7E73AB4760799A3, 0xBF4EDD62DC78612B);
    LaneIs(1, 0x9E3779B185EBCA87, 0x4FC353F22756AA4, 0xC83B28A7B3E2CD9A, 0x143295784657C77E, 0x289184A05B2F3D5F,
           0xA333AEF0A861352B, 0x6B6ED7985C4402C5, 0x7FA16D10A29BCA43, 0xA832F1B0FDCB07A2);
    LaneIs(2, 0xC2B2AE3D27D4EB4F, 0xC83B28A7B3E2CD9A, 0x143295784657C77E, 0x2542D8ADD5984DC4, 0x1773C1376975CC93,
           0x8AEDD6E4DBB7B8E9, 0x9F206C5D220F8067, 0xC463450AF7A7CE2B, 0xDBD70642611D9ABE);
    LaneIs(3, 0x165667B19E3779F9, 0x143295784657C77E, 0x2542D8ADD5984DC4, 0x10706029DC139D98, 0x974D5C5152B14E30,
           0x2A88FD29E48F4177, 0x4FCBD5D7BA278F3B, 0x603C3601963B2CD3, 0xF7899252E8EC7B03);
  }

  lemma LanesOf256Zeros2()
    ensures var acc := LongAcc(Zeros(256), KSecret());
            acc[4] == 0x3313BAA1DFC917F && acc[5] == 0xDC15345084AA6D91
            && acc[6] == 0x6301A3591EBD1EA9 && acc[7] == 0x984F4A610D412D57
  {
    hide KSecret, Zeros, LongAcc, Gain;
    Gains1(); Gains2(); Gains3();
    LaneIs(4, 0x85EBCA77C2B2AE63, 0x2542D8ADD5984DC4, 0x10706029DC139D98, 0x408F518DCDBA9188, 0x702E6CCDBE36638,
           0xAB2EA325984AFC27, 0xBB9F034F745E99BF, 0xFC2E54DD42192B47, 0x3313BAA1DFC917F);
    LaneIs(5, 0x85EBCA77, 0x10706029DC139D98, 0x408F518DCDBA9188, 0x44953E175A1FE5E0, 0x46804480FAD08E1A,
           0x1070602A61FF680F, 0x50FFB1B82FB9F997, 0x9594EFCF89D9DF77, 0xDC15345084AA6D91);
    LaneIs(6, 0x27D4EB2F165667C5, 0x408F518DCDBA9188, 0x44953E175A1FE5E0, 0x948AB501422E7DFC, 0x217D73839E5DC180,
           0x68643CBCE410F94D, 0xACF97AD43E30DF2D, 0x41842FD5805F5D29, 0x6301A3591EBD1EA9);
    LaneIs(7, 0x9E3779B1, 0x44953E175A1FE5E0, 0x948AB501422E7DFC, 0x58DB0D52C6C91658, 0x665449F50BF23972,
           0x44953E17F8575F91, 0xD91FF3193A85DD8D, 0x31FB006C014EF3E5, 0x984F4A610D412D57);
  }

  predicate LanesAre(acc: seq<u64>)
  {
    && |acc| == 8 && acc[0] == 0xBF4EDD62DC78612B && acc[1] == 0xA832F1B0FDCB07A2
    && acc[2] == 0xDBD70642611D9ABE && acc[3] == 0xF7899252E8EC7B03 && acc[4] == 0x3313BAA1DFC917F
    && acc[5] == 0xDC15345084AA6D91 && acc[6] == 0x6301A3591EBD1EA9 && acc[7] == 0x984F4A610D412D57
  }

  lemma PairIs(acc: seq<u64>, i: nat, s: nat, a: u64, b: u64, z: u64)
    requires |acc| == 8 && i < 7 && s + 16 <= 192
    requires Xor64(acc[i], At64(KSecret(), s)) == a && Xor64(acc[i + 1], At64(KSecret(), s + 8)) == b
    requires Mul128Fold64(a, b) == z
    ensures s + 16 <= |KSecret()| && Mix2Accs(acc, i, KSecret(), s) == z
  {
    hide KSecret, At64, Xor64, Mul128Fold64;
    SecretSize();
  }

  lemma MergeIs(acc: seq<u64>, secret: seq<u8>, s: nat, start: u64, a: u64, b: u64, c: u64, d: u64,
                w: u64, x: u64, y: u64, z: u64, h: u64)
    requires |acc| == 8 && s + 64 <= |secret|
    requires Mix2Accs(acc, 0, secret, s) == a && Mix2Accs(acc, 2, secret, s + 16) == b
    requires Mix2Accs(acc, 4, secret, s + 32) == c && Mix2Accs(acc, 6, secret, s + 48) == d
    requires Add64(start, a) == w && Add64(w, b) == x && Add64(x, c) == y && Add64(y, d) == z && Avalanche(z) == h
    ensures MergeAccs(acc, secret, s, start) == h
  {
    hide Mix2Accs, Add64, Avalanche;
    assert MergeSum(acc, secret, s, start, 0) == start && MergeSum(acc, secret, s, start, 1) == w;
    assert MergeSum(acc, secret, s, start, 2) == x && MergeSum(acc, secret, s, start, 3) == y;
  }

  lemma XorsOfLowPairs1()
    ensures Xor64(0xBF4EDD62DC78612B, 0x6DD4DE1CAD21F72C) == 0xD29A037E71599607
    ensures Xor64(0xA832F1B0FDCB07A2, 0xA44072DB979083E9) == 0xC72836B6A5B844B
    ensures Xor64(0x1122E561A117900D, 0xA3D6CDCA946E5CE) == 0x1B1F89BD085175C3
    ensures Xor64(0xDBD70642611D9ABE, 0xE679CB1F67B3B7A4) == 0x3DAECD5D06AE2D1A
    ensures Xor64(0xF7899252E8EC7B03, 0xD05A8278E5C0CC4E) == 0x27D3102A0D2CB74D
    ensures Xor64(0xA588493F971926D2, 0x9987C417E6132BF) == 0xAC10357EE978146D
  {
    hide Xor, Xor64;
    XorIs(0xBF4EDD62DC78612B, 0x6DD4DE1CAD21F72C, 0xD29A037E71599607);
    XorIs(0xA832F1B0FDCB07A2, 0xA44072DB979083E9, 0xC72836B6A5B844B);
    XorIs(0x1122E561A117900D, 0xA3D6CDCA946E5CE, 0x1B1F89BD085175C3);
    XorIs(0xDBD70642611D9ABE, 0xE679CB1F67B3B7A4, 0x3DAECD5D06AE2D1A);
    XorIs(0xF7899252E8EC7B03, 0xD05A8278E5C0CC4E, 0x27D3102A0D2CB74D);
    XorIs(0xA588493F971926D2, 0x9987C417E6132BF, 0xAC10357EE978146D);
  }

  lemma XorsOfLowPairs2()
    ensures Xor64(0x3313BAA1DFC917F, 0x4608B82172FFCC7D) == 0x4539838B6F035D02
    ensures Xor64(0xDC15345084AA6D91, 0x9035E08E2443F774) == 0x4C20D4DEA0E99AE5
    ensures Xor64(0xAB0F006F3AC766CA, 0x1495F3CDAAB58853) == 0xBF9AF3A29072EE99
    ensures Xor64(0x6301A3591EBD1EA9, 0x52283C4C263A81E6) == 0x31299F1538879F4F
    ensures Xor64(0x984F4A610D412D57, 0x65D088CB00C391BB) == 0xFD9FC2AA0D82BCEC
    ensures Xor64(0x15B27D7F9F22E0D4, 0x30B4D073F9D6161A) == 0x2506AD0C66F4F6CE
  {
    hide Xor, Xor64;
    XorIs(0x3313BAA1DFC917F, 0x4608B82172FFCC7D, 0x4539838B6F035D02);
    XorIs(0xDC15345084AA6D91, 0x9035E08E2443F774, 0x4C20D4DEA0E99AE5);
    XorIs(0xAB0F006F3AC766CA, 0x1495F3CDAAB58853, 0xBF9AF3A29072EE99);
    XorIs(0x6301A3591EBD1EA9, 0x52283C4C263A81E6, 0x31299F1538879F4F);
    XorIs(0x984F4A610D412D57, 0x65D088CB00C391BB, 0xFD9FC2AA0D82BCEC);
    XorIs(0x15B27D7F9F22E0D4, 0x30B4D073F9D6161A, 0x2506AD0C66F4F6CE);
  }

  lemma LowFolds()
    ensures Mul128Fold64(0xD29A037E71599607, 0xC72836B6A5B844B) == 0x1B1F89BD085175C3
    ensures Mul128Fold64(0x3DAECD5D06AE2D1A, 0x27D3102A0D2CB74D) == 0xAC10357EE978146D
    ensures Mul128Fold64(0x4539838B6F035D02, 0x4C20D4DEA0E99AE5) == 0xBF9AF3A29072EE99
    ensures Mul128Fold64(0x31299F1538879F4F, 0xFD9FC2AA0D82BCEC) == 0x2506AD0C66F4F6CE
  {
    hide Xor64, Mul128Fold64;
    XorsOfLowPairs1(); XorsOfLowPairs2();
    FoldIs(0xD29A037E71599607, 0xC72836B6A5B844B, 0x1122E561A117900D, 0xA3D6CDCA946E5CE, 0x1B1F89BD085175C3);
    FoldIs(0x3DAECD5D06AE2D1A, 0x27D3102A0D2CB74D, 0xA588493F971926D2, 0x9987C417E6132BF, 0xAC10357EE978146D);
    FoldIs(0x4539838B6F035D02, 0x4C20D4DEA0E99AE5, 0xAB0F006F3AC766CA, 0x1495F3CDAAB58853, 0xBF9AF3A29072EE99);
    FoldIs(0x31299F1538879F4F, 0xFD9FC2AA0D82BCEC, 0x15B27D7F9F22E0D4, 0x30B4D073F9D6161A, 0x2506AD0C66F4F6CE);
  }

  lemma LowPairs(acc: seq<u64>)
    requires LanesAre(acc)
    ensures |KSecret()| == 192
    ensures Mix2Accs(acc, 0, KSecret(), 11) == 0x1B1F89BD085175C3
    ensures Mix2Accs(acc, 2, KSecret(), 27) == 0xAC10357EE978146D
    ensures Mix2Accs(acc, 4, KSecret(), 43) == 0xBF9AF3A29072EE99
    ensures Mix2Accs(acc, 6, KSecret(), 59) == 0x2506AD0C66F4F6CE
  {
    hide KSecret, At64, Xor64, Mul128Fold64, Mix2Accs;
    SecretSize();
    Secret11(); Secret27(); Secret43(); Secret59();
    XorsOfLowPairs1(); XorsOfLowPairs2();
    LowFolds();
    PairIs(acc, 0, 11, 0xD29A037E71599607, 0xC72836B6A5B844B, 0x1B1F89BD085175C3);
    PairIs(acc, 2, 27, 0x3DAECD5D06AE2D1A, 0x27D3102A0D2CB74D, 0xAC10357EE978146D);
    PairIs(acc, 4, 43, 0x4539838B6F035D02, 0x4C20D4DEA0E99AE5, 0xBF9AF3A29072EE99);
    PairIs(acc, 6, 59, 0x31299F1538879F4F, 0xFD9FC2AA0D82BCEC, 0x2506AD0C66F4F6CE);
  }

  lemma XorsOfLowMerge()
    ensures Xor64(0xE34B1170D4FBF697, 0x71A588B) == 0xE34B1170D3E1AE1C
    ensures Xor64(0xA68DFBB171D1953C, 0xA68DFBB1) == 0xA68DFBB1D75C6E8D
  {
    hide Xor, Xor64;
    XorIs(0xE34B1170D4FBF697, 0x71A588B, 0xE34B1170D3E1AE1C);
    XorIs(0xA68DFBB171D1953C, 0xA68DFBB1, 0xA68DFBB1D75C6E8D);
  }

  lemma XorsOfHighPairs1()
    ensures Xor64(0xBF4EDD62DC78612B, 0xD9C97E9FC83159B4) == 0x6687A3FD1449389F
    ensures Xor64(0xA832F1B0FDCB07A2, 0x3483ACC5EA647378) == 0x9CB15D7517AF74DA
    ensures Xor64(0x859B688371B34366, 0x3EC1B124C664FD6B) == 0xBB5AD9A7B7D7BE0D
    ensures Xor64(0xDBD70642611D9ABE, 0xFAFFA081C5C3EBD3) == 0x2128A6C3A4DE716D
    ensures Xor64(0xF7899252E8EC7B03, 0xB751DD0D17EB6313) == 0x40D84F5FFF071810
    ensures Xor64(0x1A449332D5844ED0, 0x8662E4598DF63DD) == 0x1222BD774D5B2D0D
  {
    hide Xor, Xor64;
    XorIs(0xBF4EDD62DC78612B, 0xD9C97E9FC83159B4, 0x6687A3FD1449389F);
    XorIs(0xA832F1B0FDCB07A2, 0x3483ACC5EA647378, 0x9CB15D7517AF74DA);
    XorIs(0x859B688371B34366, 0x3EC1B124C664FD6B, 0xBB5AD9A7B7D7BE0D);
    XorIs(0xDBD70642611D9ABE, 0xFAFFA081C5C3EBD3, 0x2128A6C3A4DE716D);
    XorIs(0xF7899252E8EC7B03, 0xB751DD0D17EB6313, 0x40D84F5FFF071810);
    XorIs(0x1A449332D5844ED0, 0x8662E4598DF63DD, 0x1222BD774D5B2D0D);
  }

  lemma XorsOfHighPairs2()
    ensures Xor64(0x3313BAA1DFC917F, 0x29265516D349DAF0) == 0x2A176EBCCEB54B8F
    ensures Xor64(0xDC15345084AA6D91, 0x7D58BE162B9E68D4) == 0xA14D8A46AF340545
    ensures Xor64(0x467333815B63288B, 0x1A857C6D4DB2D26E) == 0x5CF64FEC16D1FAE5
    ensures Xor64(0x6301A3591EBD1EA9, 0x7AD1B8F88FFCA147) == 0x19D01BA19141BFEE
    ensures Xor64(0x984F4A610D412D57, 0x958F3ACB45CE31D0) == 0xDC070AA488F1C87
    ensures Xor64(0x820073D7F09C3E82, 0x162F8D8252746CB) == 0x83628B0FD5BB7849
  {
    hide Xor, Xor64;
    XorIs(0x3313BAA1DFC917F, 0x29265516D349DAF0, 0x2A176EBCCEB54B8F);
    XorIs(0xDC15345084AA6D91, 0x7D58BE162B9E68D4, 0xA14D8A46AF340545);
    XorIs(0x467333815B63288B, 0x1A857C6D4DB2D26E, 0x5CF64FEC16D1FAE5);
    XorIs(0x6301A3591EBD1EA9, 0x7AD1B8F88FFCA147, 0x19D01BA19141BFEE);
    XorIs(0x984F4A610D412D57, 0x958F3ACB45CE31D0, 0xDC070AA488F1C87);
    XorIs(0x820073D7F09C3E82, 0x162F8D8252746CB, 0x83628B0FD5BB7849);
  }

  lemma HighFolds()
    ensures Mul128Fold64(0x6687A3FD1449389F, 0x9CB15D7517AF74DA) == 0xBB5AD9A7B7D7BE0D
    ensures Mul128Fold64(0x2128A6C3A4DE716D, 0x40D84F5FFF071810) == 0x1222BD774D5B2D0D
    ensures Mul128Fold64(0x2A176EBCCEB54B8F, 0xA14D8A46AF340545) == 0x5CF64FEC16D1FAE5
    ensures Mul128Fold64(0x19D01BA19141BFEE, 0xDC070AA488F1C87) == 0x83628B0FD5BB7849
  {
    hide Xor64, Mul128Fold64;
    XorsOfHighPairs1(); XorsOfHighPairs2();
    FoldIs(0x6687A3FD1449389F, 0x9CB15D7517AF74DA, 0x859B688371B34366, 0x3EC1B124C664FD6B, 0xBB5AD9A7B7D7BE0D);
    FoldIs(0x2128A6C3A4DE716D, 0x40D84F5FFF071810, 0x1A449332D5844ED0, 0x8662E4598DF63DD, 0x1222BD774D5B2D0D);
    FoldIs(0x2A176EBCCEB54B8F, 0xA14D8A46AF340545, 0x467333815B63288B, 0x1A857C6D4DB2D26E, 0x5CF64FEC16D1FAE5);
    FoldIs(0x19D01BA19141BFEE, 0xDC070AA488F1C87, 0x820073D7F09C3E82, 0x162F8D8252746CB, 0x83628B0FD5BB7849);
  }

  lemma HighPairs(acc: seq<u64>)
    requires LanesAre(acc)
    ensures |KSecret()| == 192
    ensures Mix2Accs(acc, 0, KSecret(), 117) == 0xBB5AD9A7B7D7BE0D
    ensures Mix2Accs(acc, 2, KSecret(), 133) == 0x1222BD774D5B2D0D
    ensures Mix2Accs(acc, 4, KSecret(), 149) == 0x5CF64FEC16D1FAE5
    ensures Mix2Accs(acc, 6, KSecret(), 165) == 0x83628B0FD5BB7849
  {
    hide KSecret, At64, Xor64, Mul128Fold64, Mix2Accs;
    SecretSize();
    Secret117(); Secret133(); Secret149(); Secret165();
    XorsOfHighPairs1(); XorsOfHighPairs2();
    HighFolds();
    PairIs(acc, 0, 117, 0x6687A3FD1449389F, 0x9CB15D7517AF74DA, 0xBB5AD9A7B7D7BE0D);
    PairIs(acc, 2, 133, 0x2128A6C3A4DE716D, 0x40D84F5FFF071810, 0x1222BD774D5B2D0D);
    PairIs(acc, 4, 149, 0x2A176EBCCEB54B8F, 0xA14D8A46AF340545, 0x5CF64FEC16D1FAE5);
    PairIs(acc, 6, 165, 0x19D01BA19141BFEE, 0xDC070AA488F1C87, 0x83628B0FD5BB7849);
  }

  lemma XorsOfHighMerge()
    ensures Xor64(0xFB2834F31CD50F47, 0x7D941A7) == 0xFB2834F31B0C4EE0
    ensures Xor64(0xBB039D71526097E0, 0xBB039D71) == 0xBB039D71E9630A91
  {
    hide Xor, Xor64;
    XorIs(0xFB2834F31CD50F47, 0x7D941A7, 0xFB2834F31B0C4EE0);
    XorIs(0xBB039D71526097E0, 0xBB039D71, 0xBB039D71E9630A91);
  }

  lemma Starts256()
    ensures Mul64(Len64(256), PRIME64_1) == 0x3779B185EBCA8700
    ensures Complement64(Mul64(Len64(256), PRIME64_2)) == 0x4D51C2D82B14B0FF
  {
  }

  lemma LowMergeOf256Zeros()
    ensures |KSecret()| == 192
    ensures MergeAccs(LongAcc(Zeros(256), KSecret()), KSecret(), 11, 0x3779B185EBCA8700) == 0xA68DFBB1D75C6E8D
  {
    hide KSecret, Zeros, LongAcc, MergeAccs, Mix2Accs, Xor64, Avalanche;
    SecretSize(); LanesOf256Zeros1(); LanesOf256Zeros2();
    LowPairs(LongAcc(Zeros(256), KSecret()));
    XorsOfLowMerge();
    AvalancheIs(0xE34B1170D4FBF697, 0x71A588B, 0xE34B1170D3E1AE1C, 0xA68DFBB171D1953C, 0xA68DFBB1,
                0xA68DFBB1D75C6E8D);
    MergeIs(LongAcc(Zeros(256), KSecret()), KSecret(), 11, 0x3779B185EBCA8700, 0x1B1F89BD085175C3, 0xAC10357EE978146D,
            0xBF9AF3A29072EE99, 0x2506AD0C66F4F6CE, 0x52993B42F41BFCC3, 0xFEA970C1DD941130, 0xBE4464646E06FFC9,
            0xE34B1170D4FBF697, 0xA68DFBB1D75C6E8D);
  }

  lemma HighMergeOf256Zeros()
    ensures |KSecret()| == 192
    ensures MergeAccs(LongAcc(Zeros(256), KSecret()), KSecret(), 117, 0x4D51C2D82B14B0FF) == 0xBB039D71E9630A91
  {
    hide KSecret, Zeros, LongAcc, MergeAccs, Mix2Accs, Xor64, Avalanche;
    SecretSize(); LanesOf256Zeros1(); LanesOf256Zeros2();
    HighPairs(LongAcc(Zeros(256), KSecret()));
    XorsOfHighMerge();
    AvalancheIs(0xFB2834F31CD50F47, 0x7D941A7, 0xFB2834F31B0C4EE0, 0xBB039D71526097E0, 0xBB039D71,
                0xBB039D71E9630A91);
    MergeIs(LongAcc(Zeros(256), KSecret()), KSecret(), 117, 0x4D51C2D82B14B0FF, 0xBB5AD9A7B7D7BE0D,
            0x1222BD774D5B2D0D, 0x5CF64FEC16D1FAE5, 0x83628B0FD5BB7849, 0x8AC9C7FE2EC6F0C, 0x1ACF59F730479C19,
            0x77C5A9E3471996FE, 0xFB2834F31CD50F47, 0xBB039D71E9630A91);
  }

  /** The XXH3 hashes of 256 zero bytes. */
  lemma HashesOf256Zeros()
    ensures Hash64(Plain, Zeros(256)) == 0xA68DFBB1D75C6E8D
    ensures Hash128(Plain, Zeros(256)) == U128(0xA68DFBB1D75C6E8D, 0xBB039D71E9630A91)
  {
    hide KSecret, Zeros, LongAcc, MergeAccs;
    Starts256();
    LowMergeOf256Zeros(); HighMergeOf256Zeros();
  }

  // ---- XXH3, up to 16 bytes -----------------------------------------------------------

  lemma XorsOfNothing()
    ensures Xor64(0x4C263A81E69035E0, 0xCB00C391BB52283C) == 0x8726F9105DC21DDC
    ensures Xor64(0x1, 0x8726F9105DC21DDC) == 0x8726F9105DC21DDD
    ensures Xor64(0xCB00C391BB52283C, 0xA32E531B8B65D088) == 0x682E908A3037F8B4
    ensures Xor64(0x1, 0x682E908A3037F8B4) == 0x682E908A3037F8B5
    ensures Xor64(0x4EF90DA297486471, 0xD8ACDEA946EF1938) == 0x9655D30BD1A77D49
    ensures Xor64(0x1, 0x9655D30BD1A77D49) == 0x9655D30BD1A77D48
  {
    hide Xor, Xor64;
    XorIs(0x4C263A81E69035E0, 0xCB00C391BB52283C, 0x8726F9105DC21DDC);
    XorOne(0x8726F9105DC21DDC);
    XorIs(0xCB00C391BB52283C, 0xA32E531B8B65D088, 0x682E908A3037F8B4);
    XorOne(0x682E908A3037F8B4);
    XorIs(0x4EF90DA297486471, 0xD8ACDEA946EF1938, 0x9655D30BD1A77D49);
    XorOne(0x9655D30BD1A77D49);
  }

  lemma LastXorsOfNothing1()
    ensures Xor64(0x8726F9105DC21DDD, 0x43937C88) == 0x8726F9101E516155
    ensures Xor64(0xD24620479CDA103B, 0x69231023C) == 0xD24620410EEB1207
    ensures Xor64(0x4DC5B0CCCFAAD7CF, 0x4DC5B0CC) == 0x4DC5B0CC826F6703
    ensures Xor64(0x682E908A3037F8B5, 0x34174845) == 0x682E908A0420B0F0
    ensures Xor64(0xB8E6FB985F42EA10, 0x5C737DCC2) == 0xB8E6FB9D987536D2
  {
    hide Xor, Xor64;
    XorIs(0x8726F9105DC21DDD, 0x43937C88, 0x8726F9101E516155);
    XorIs(0xD24620479CDA103B, 0x69231023C, 0xD24620410EEB1207);
    XorIs(0x4DC5B0CCCFAAD7CF, 0x4DC5B0CC, 0x4DC5B0CC826F6703);
    XorIs(0x682E908A3037F8B5, 0x34174845, 0x682E908A0420B0F0);
    XorIs(0xB8E6FB985F42EA10, 0x5C737DCC2, 0xB8E6FB9D987536D2);
  }

  lemma LastXorsOfNothing2()
    ensures Xor64(0x6131B78F14099442, 0x6131B78F) == 0x6131B78F753823CD
    ensures Xor64(0x9655D30BD1A77D48, 0x4B2AE985) == 0x9655D30B9A8D94CD
    ensures Xor64(0x96C921381E0D1A43, 0x4B64909C0) == 0x96C9213CA8441383
    ensures Xor64(0xD9265CC5E294E56B, 0xD9265CC5) == 0xD9265CC53BB2B9AE
  {
    hide Xor, Xor64;
    XorIs(0x6131B78F14099442, 0x6131B78F, 0x6131B78F753823CD);
    XorIs(0x9655D30BD1A77D48, 0x4B2AE985, 0x9655D30B9A8D94CD);
    XorIs(0x96C921381E0D1A43, 0x4B64909C0, 0x96C9213CA8441383);
    XorIs(0xD9265CC5E294E56B, 0xD9265CC5, 0xD9265CC53BB2B9AE);
  }

  lemma AvalanchesOfNothing()
    ensures Xxh64Avalanche(0x8726F9105DC21DDD) == 0x4DC5B0CC826F6703
    ensures Xxh64Avalanche(0x682E908A3037F8B5) == 0x6131B78F753823CD
    ensures Xxh64Avalanche(0x9655D30BD1A77D48) == 0xD9265CC53BB2B9AE
  {
    hide Xor64, Xxh64Avalanche;
    LastXorsOfNothing1(); LastXorsOfNothing2();
    Xxh64AvalancheIs(0x8726F9105DC21DDD, 0x43937C88, 0x8726F9101E516155, 0xD24620479CDA103B, 0x69231023C,
                     0xD24620410EEB1207, 0x4DC5B0CCCFAAD7CF, 0x4DC5B0CC, 0x4DC5B0CC826F6703);
    Xxh64AvalancheIs(0x682E908A3037F8B5, 0x34174845, 0x682E908A0420B0F0, 0xB8E6FB985F42EA10, 0x5C737DCC2,
                     0xB8E6FB9D987536D2, 0x6131B78F14099442, 0x6131B78F, 0x6131B78F753823CD);
    Xxh64AvalancheIs(0x9655D30BD1A77D48, 0x4B2AE985, 0x9655D30B9A8D94CD, 0x96C921381E0D1A43, 0x4B64909C0,
                     0x96C9213CA8441383, 0xD9265CC5E294E56B, 0xD9265CC5, 0xD9265CC53BB2B9AE);
  }

  /** The XXH3 hashes, with seed 1, of the empty input. */
  lemma HashesOfNothing()
    ensures Hash64(WithSeed(1), []) == 0x4DC5B0CC826F6703
    ensures Hash128(WithSeed(1), []) == U128(0x6131B78F753823CD, 0xD9265CC53BB2B9AE)
  {
    hide KSecret, At64, Xor64, Xxh64Avalanche;
    Secret56(); Secret64(); Secret80();
    XorsOfNothing();
    AvalanchesOfNothing();
  }

  lemma XorsOf1Byte()
    ensures Xor64(0x396CFEB8, 0xBE4BA423) == 0x87275A9B
    ensures Xor64(0x61610161, 0x87275A9C) == 0xE6465BFD
    ensures Xor64(0x2C81017C, 0x1CAD21F7) == 0x302C208B
    ensures Xor64(0x2C2C2C20, 0x302C208A) == 0x1C000CAA
  {
    hide Xor, Xor64;
    XorIs(0x396CFEB8, 0xBE4BA423, 0x87275A9B);
    XorIs(0x61610161, 0x87275A9C, 0xE6465BFD);
    XorIs(0x2C81017C, 0x1CAD21F7, 0x302C208B);
    XorIs(0x2C2C2C20, 0x302C208A, 0x1C000CAA);
  }

  lemma LastXorsOf1Byte()
    ensures Xor64(0xE6465BFD, 0x0) == 0xE6465BFD
    ensures Xor64(0x85081F3A5EABA213, 0x42840F9D2) == 0x85081F3E76EB5BC1
    ensures Xor64(0xD2F6D099BDC177B9, 0xD2F6D099) == 0xD2F6D0996F37A720
    ensures Xor64(0x1C000CAA, 0x0) == 0x1C000CAA
    ensures Xor64(0x5B2DDC37126BF676, 0x2D96EE1B8) == 0x5B2DDC35CB0517CE
    ensures Xor64(0xFDD9B77F2176855E, 0xFDD9B77F) == 0xFDD9B77FDCAF3221
  {
    hide Xor, Xor64;
    XorWithZero(0xE6465BFD);
    XorIs(0x85081F3A5EABA213, 0x42840F9D2, 0x85081F3E76EB5BC1);
    XorIs(0xD2F6D099BDC177B9, 0xD2F6D099, 0xD2F6D0996F37A720);
    XorWithZero(0x1C000CAA);
    XorIs(0x5B2DDC37126BF676, 0x2D96EE1B8, 0x5B2DDC35CB0517CE);
    XorIs(0xFDD9B77F2176855E, 0xFDD9B77F, 0xFDD9B77FDCAF3221);
  }

  lemma FlipsOf1Byte()
    ensures Xor32(At32(KSecret(), 0), At32(KSecret(), 4)) == 0x87275A9B
    ensures Xor32(At32(KSecret(), 8), At32(KSecret(), 12)) == 0x302C208B
  {
    hide At32, ReadLE, Xor, KSecret;
    SecretHalfWord(0, 0x396CFEB8); SecretHalfWord(4, 0xBE4BA423);
    SecretHalfWord(8, 0x2C81017C); SecretHalfWord(12, 0x1CAD21F7);
    XorsOf1Byte();
  }

  lemma CombinedOf1Byte()
    ensures Combined([0x61]) == 0x61610161 && Rotl32(Swap32(0x61610161), 13) == 0x2C2C2C20
  {
    Powers();
    hide Pow2, Swap32, Rotl32;
    Swap32Is(0x61610161, 0x61016161, [0x61, 0x1, 0x61, 0x61]);
    Rotl32Is(0x61016161, 13, 0x2000, 0x80000, 0x2C2C2C20);
  }

  lemma AvalanchesOf1Byte()
    ensures Xxh64Avalanche(0xE6465BFD) == 0xD2F6D0996F37A720
    ensures Xxh64Avalanche(0x1C000CAA) == 0xFDD9B77FDCAF3221
  {
    hide Xor64, Xxh64Avalanche;
    LastXorsOf1Byte();
    Xxh64AvalancheIs(0xE6465BFD, 0x0, 0xE6465BFD, 0x85081F3A5EABA213, 0x42840F9D2, 0x85081F3E76EB5BC1,
                     0xD2F6D099BDC177B9, 0xD2F6D099, 0xD2F6D0996F37A720);
    Xxh64AvalancheIs(0x1C000CAA, 0x0, 0x1C000CAA, 0x5B2DDC37126BF676, 0x2D96EE1B8, 0x5B2DDC35CB0517CE,
                     0xFDD9B77F2176855E, 0xFDD9B77F, 0xFDD9B77FDCAF3221);
  }

  /** The XXH3 hashes, with seed 1, of one byte. */
  lemma HashesOf1Byte()
    ensures Hash64(WithSeed(1), [0x61]) == 0xD2F6D0996F37A720
    ensures Hash128(WithSeed(1), [0x61]) == U128(0xD2F6D0996F37A720, 0xFDD9B77FDCAF3221)
  {
    hide KSecret, At32, Xor32, Xor64, Combined, Swap32, Rotl32, Xxh64Avalanche;
    FlipsOf1Byte(); CombinedOf1Byte();
    XorsOf1Byte();
    AvalanchesOf1Byte();
  }

  lemma RrmxmxIs(h: u64, len: u64, v: u64, w: u64, x: u64, y: u64, a: u64, t: u64, u: u64, z: u64, b: u64,
                 q: u64, r: u64)
    requires h % 0x8000 * 0x2_0000_0000_0000 + h / 0x8000 == v
    requires h % 0x100_0000_0000 * 0x100_0000 + h / 0x100_0000_0000 == w
    requires Xor64(v, w) == x && Xor64(h, x) == y && Mul64(y, MX_PRIME) == a
    requires a / 0x8_0000_0000 == t && Add64(t, len) == u && Xor64(a, u) == z && Mul64(z, MX_PRIME) == b
    requires b / 0x1000_0000 == q && Xor64(b, q) == r
    ensures Rrmxmx(h, len) == r
  {
    Powers(); SmallPowers();
    hide Pow2, Xor64, Mul64, Add64, Rotl64;
    Rotl64Is(h, 49, 0x2_0000_0000_0000, 0x8000, v); Rotl64Is(h, 24, 0x100_0000, 0x100_0000_0000, w);
    ShrIsQuotient(a, 35); ShrIsQuotient(b, 28);
  }

  lemma Finish4To8Is(low: u64, high: u64, m: u64, h: u64, t: u64, l: u64, q: u64, a: u64, b: u64, r: u64,
                     c: u64, d: u64)
    requires Mul64(low, 2) == m && Add64(high, m) == h && h / 8 == t && Xor64(low, t) == l
    requires l / 0x8_0000_0000 == q && Xor64(l, q) == a && Mul64(a, MX_PRIME) == b
    requires b / 0x1000_0000 == r && Xor64(b, r) == c && Avalanche(h) == d
    ensures Finish4To8(U128(low, high)) == U128(c, d)
  {
    Powers(); SmallPowers();
    hide Pow2, Xor64, Mul64, Add64, Avalanche;
    ShrIsQuotient(h, 3); ShrIsQuotient(l, 35); ShrIsQuotient(b, 28);
  }

  lemma XorsOf5Bytes1()
    ensures Xor64(0x1, 0x100000000000000) == 0x100000000000001
    ensures Xor64(0x1CAD21F72C81017C, 0xDB979083E96DD4DE) == 0xC73AB174C5ECD5A2
    ensures Xor64(0x403020105040302, 0xC63AB174C5ECD5A1) == 0xC239B375C0E8D6A3
    ensures Xor64(0xAD47847366EB81D1, 0x75C0E8D6A3C239B3) == 0xD8876CA5C529B862
  {
    hide Xor, Xor64;
    XorOne(0x100000000000000);
    XorIs(0x1CAD21F72C81017C, 0xDB979083E96DD4DE, 0xC73AB174C5ECD5A2);
    XorIs(0x403020105040302, 0xC63AB174C5ECD5A1, 0xC239B375C0E8D6A3);
    XorIs(0xAD47847366EB81D1, 0x75C0E8D6A3C239B3, 0xD8876CA5C529B862);
  }

  lemma XorsOf5Bytes2()
    ensures Xor64(0xC239B375C0E8D6A3, 0xD8876CA5C529B862) == 0x1ABEDFD005C16EC1
    ensures Xor64(0xB55C720DB50720E5, 0x16AB8E46) == 0xB55C720DA3ACAEA3
    ensures Xor64(0x2F8E82D9DEDD3A8F, 0x2F8E82D9D) == 0x2F8E82DB26351712
    ensures Xor64(0xDB979083E96DD4DE, 0x1F67B3B7A4A44072) == 0xC4F023344DC994AC
  {
    hide Xor, Xor64;
    XorIs(0xC239B375C0E8D6A3, 0xD8876CA5C529B862, 0x1ABEDFD005C16EC1);
    XorIs(0xB55C720DB50720E5, 0x16AB8E46, 0xB55C720DA3ACAEA3);
    XorIs(0x2F8E82D9DEDD3A8F, 0x2F8E82D9D, 0x2F8E82DB26351712);
    XorIs(0xDB979083E96DD4DE, 0x1F67B3B7A4A44072, 0xC4F023344DC994AC);
  }

  lemma XorsOf5Bytes3()
    ensures Xor64(0x504030204030201, 0xC5F023344DC994AD) == 0xC0F4203649CA96AC
    ensures Xor64(0x88A3CD443470F224, 0x111102D2C0E16878) == 0x99B2CF96F4919A5C
    ensures Xor64(0x99B2CF96F4919A5C, 0x133659F2) == 0x99B2CF96E7A7C3AE
    ensures Xor64(0xC9FEE4CB3203DA26, 0xC9FEE4CB3) == 0xC9FEE4C7ADED9695
  {
    hide Xor, Xor64;
    XorIs(0x504030204030201, 0xC5F023344DC994AD, 0xC0F4203649CA96AC);
    XorIs(0x88A3CD443470F224, 0x111102D2C0E16878, 0x99B2CF96F4919A5C);
    XorIs(0x99B2CF96F4919A5C, 0x133659F2, 0x99B2CF96E7A7C3AE);
    XorIs(0xC9FEE4CB3203DA26, 0xC9FEE4CB3, 0xC9FEE4C7ADED9695);
  }

  lemma XorsOf5Bytes4()
    ensures Xor64(0x88881696070B43C1, 0x44440B4) == 0x88881696034F0375
    ensures Xor64(0x70C361DA849FA9CD, 0x70C361DA) == 0x70C361DAF45CC817
  {
    hide Xor, Xor64;
    XorIs(0x88881696070B43C1, 0x44440B4, 0x88881696034F0375);
    XorIs(0x70C361DA849FA9CD, 0x70C361DA, 0x70C361DAF45CC817);
  }

  lemma WordsOf5Bytes()
    ensures At32([1, 2, 3, 4, 5], 0) == 0x4030201 && At32([1, 2, 3, 4, 5], 1) == 0x5040302
  {
    hide At32;
    HalfWordIs([1, 2, 3, 4, 5], 0, 0x4030201);
    HalfWordIs([1, 2, 3, 4, 5], 1, 0x5040302);
  }

  lemma SpreadOf1()
    ensures SpreadSeed(1) == 0x100000000000001
  {
    hide Xor64, Swap32;
    Swap32Is(1, 0x1000000, [1, 0, 0, 0]);
    XorsOf5Bytes1(); XorsOf5Bytes2(); XorsOf5Bytes3(); XorsOf5Bytes4();
  }

  lemma StepsOf5Bytes()
    ensures Rrmxmx(0xC239B375C0E8D6A3, 5) == 0x2F8E82DB26351712
    ensures Finish4To8(U128(0x88A3CD443470F224, 0x77407C0D9E295F79)) == U128(0xC9FEE4C7ADED9695, 0x70C361DAF45CC817)
    ensures Mult64To128(0xC0F4203649CA96AC, PRIME64_1 + 20) == U128(0x88A3CD443470F224, 0x77407C0D9E295F79)
  {
    hide Xor64, Rrmxmx, Finish4To8, Avalanche;
    XorsOf5Bytes1(); XorsOf5Bytes2(); XorsOf5Bytes3(); XorsOf5Bytes4();
    RrmxmxIs(0xC239B375C0E8D6A3, 5, 0xAD47847366EB81D1, 0x75C0E8D6A3C239B3, 0xD8876CA5C529B862, 0x1ABEDFD005C16EC1,
             0xB55C720DB50720E5, 0x16AB8E41, 0x16AB8E46, 0xB55C720DA3ACAEA3, 0x2F8E82D9DEDD3A8F, 0x2F8E82D9D,
             0x2F8E82DB26351712);
    AvalancheIs(0x88881696070B43C1, 0x44440B4, 0x88881696034F0375, 0x70C361DA849FA9CD, 0x70C361DA,
                0x70C361DAF45CC817);
    Finish4To8Is(0x88A3CD443470F224, 0x77407C0D9E295F79, 0x11479A8868E1E448, 0x88881696070B43C1, 0x111102D2C0E16878,
                 0x99B2CF96F4919A5C, 0x133659F2, 0x99B2CF96E7A7C3AE, 0xC9FEE4CB3203DA26, 0xC9FEE4CB3,
                 0xC9FEE4C7ADED9695, 0x70C361DAF45CC817);
    Product5();
  }

  lemma Product5()
    ensures Mult64To128(0xC0F4203649CA96AC, PRIME64_1 + 20) == U128(0x88A3CD443470F224, 0x77407C0D9E295F79)
  {
  }

  /** The XXH3 hashes, with seed 1, of five bytes. */
  lemma HashesOf5Bytes()
    ensures Hash64(WithSeed(1), [1, 2, 3, 4, 5]) == 0x2F8E82DB26351712
    ensures Hash128(WithSeed(1), [1, 2, 3, 4, 5]) == U128(0xC9FEE4C7ADED9695, 0x70C361DAF45CC817)
  {
    hide KSecret, At64, At32, Xor64, SpreadSeed, Rrmxmx, Finish4To8, Mult64To128;
    Secret8(); Secret16();
    WordsOf5Bytes(); SpreadOf1(); StepsOf5Bytes();
    XorsOf5Bytes1(); XorsOf5Bytes2(); XorsOf5Bytes3(); XorsOf5Bytes4();
  }

  lemma XorsOf9Bytes1()
    ensures Xor64(0x1F67B3B7A4A44072, 0x78E5C0CC4EE679CB) == 0x6782737BEA4239B9
    ensures Xor64(0x2172FFCC7DD05A82, 0x8E2443F7744608B8) == 0xAF56BC3B0996523A
    ensures Xor64(0x807060504030201, 0x6782737BEA4239BA) == 0x6F85757EEE413BBB
    ensures Xor64(0x908070605040302, 0xAF56BC3B09965239) == 0xA65EBB3D0C92513B
    ensures Xor64(0x805502336194EF19, 0x4879CEC288347EF9) == 0xC82CCCF1E9A091E0
    ensures Xor64(0x29C6CA1D74A86893, 0x14E3650) == 0x29C6CA1D75E65EC3
  {
    hide Xor, Xor64;
    XorIs(0x1F67B3B7A4A44072, 0x78E5C0CC4EE679CB, 0x6782737BEA4239B9);
    XorIs(0x2172FFCC7DD05A82, 0x8E2443F7744608B8, 0xAF56BC3B0996523A);
    XorIs(0x807060504030201, 0x6782737BEA4239BA, 0x6F85757EEE413BBB);
    XorIs(0x908070605040302, 0xAF56BC3B09965239, 0xA65EBB3D0C92513B);
    XorIs(0x805502336194EF19, 0x4879CEC288347EF9, 0xC82CCCF1E9A091E0);
    XorIs(0x29C6CA1D74A86893, 0x14E3650, 0x29C6CA1D75E65EC3);
  }

  lemma XorsOf9Bytes2()
    ensures Xor64(0x421927CF45C156AB, 0x421927CF) == 0x421927CF07D87164
    ensures Xor64(0x78E5C0CC4EE679CB, 0x2172FFCC7DD05A82) == 0x59973F0033362349
    ensures Xor64(0x8E2443F7744608B8, 0x4C263A81E69035E0) == 0xC202797692D63D58
    ensures Xor64(0x807060504030201, 0x908070605040302) == 0x10F010301070103
    ensures Xor64(0x10F010301070103, 0x59973F0033362348) == 0x58983E033231224B
    ensures Xor64(0x908070605040302, 0xC202797692D63D59) == 0xCB0A7E7097D23E5B
  {
    hide Xor, Xor64;
    XorIs(0x421927CF45C156AB, 0x421927CF, 0x421927CF07D87164);
    XorIs(0x78E5C0CC4EE679CB, 0x2172FFCC7DD05A82, 0x59973F0033362349);
    XorIs(0x8E2443F7744608B8, 0x4C263A81E69035E0, 0xC202797692D63D58);
    XorIs(0x807060504030201, 0x908070605040302, 0x10F010301070103);
    XorIs(0x10F010301070103, 0x59973F0033362348, 0x58983E033231224B);
    XorIs(0x908070605040302, 0xC202797692D63D59, 0xCB0A7E7097D23E5B);
  }

  lemma XorsOf9Bytes3()
    ensures Xor64(0x684FC10AED1438D, 0x4FB0CADFFB73751) == 0x27FF0BD516674DC
    ensures Xor64(0x6D767937761403E4, 0x36BB3C9) == 0x6D767937757FB02D
    ensures Xor64(0xB7490F224322A0C5, 0xB7490F22) == 0xB7490F22F46BAFE7
    ensures Xor64(0x2A94FFCB3690FC64, 0x154A7FE) == 0x2A94FFCB37C45B9A
    ensures Xor64(0xD1B6DDF7C75EE2CA, 0xD1B6DDF7) == 0xD1B6DDF716E83F3D
  {
    hide Xor, Xor64;
    XorIs(0x684FC10AED1438D, 0x4FB0CADFFB73751, 0x27FF0BD516674DC);
    XorIs(0x6D767937761403E4, 0x36BB3C9, 0x6D767937757FB02D);
    XorIs(0xB7490F224322A0C5, 0xB7490F22, 0xB7490F22F46BAFE7);
    XorIs(0x2A94FFCB3690FC64, 0x154A7FE, 0x2A94FFCB37C45B9A);
    XorIs(0xD1B6DDF7C75EE2CA, 0xD1B6DDF7, 0xD1B6DDF716E83F3D);
  }

  lemma WordsOf9Bytes()
    ensures At64([1, 2, 3, 4, 5, 6, 7, 8, 9], 0) == 0x807060504030201
    ensures At64([1, 2, 3, 4, 5, 6, 7, 8, 9], 1) == 0x908070605040302
  {
    hide At64;
    WordIs([1, 2, 3, 4, 5, 6, 7, 8, 9], 0, 0x807060504030201);
    WordIs([1, 2, 3, 4, 5, 6, 7, 8, 9], 1, 0x908070605040302);
  }

  lemma SwapsOf9Bytes()
    ensures Swap64(0x6F85757EEE413BBB) == 0xBB3B41EE7E75856F && Swap64(0x5137B7FFAD0CFB04) == 0x4FB0CADFFB73751
  {
    hide Swap64;
    Swap64Is(0x6F85757EEE413BBB, 0xBB3B41EE7E75856F, [0xBB, 0x3B, 0x41, 0xEE, 0x7E, 0x75, 0x85, 0x6F]);
    Swap64Is(0x5137B7FFAD0CFB04, 0x4FB0CADFFB73751, [0x4, 0xFB, 0xC, 0xAD, 0xFF, 0xB7, 0x37, 0x51]);
  }

  lemma StepsOf9Bytes()
    ensures Mul128Fold64(0x6F85757EEE413BBB, 0xA65EBB3D0C92513B) == 0xC82CCCF1E9A091E0
    ensures Avalanche(0x29C6CA1D74A86893) == 0x421927CF07D87164 && Avalanche(0x6D767937761403E4) == 0xB7490F22F46BAFE7
    ensures Avalanche(0x2A94FFCB3690FC64) == 0xD1B6DDF716E83F3D
  {
    hide Xor64, Mul128Fold64, Avalanche;
    XorsOf9Bytes1(); XorsOf9Bytes2(); XorsOf9Bytes3();
    FoldIs(0x6F85757EEE413BBB, 0xA65EBB3D0C92513B, 0x805502336194EF19, 0x4879CEC288347EF9, 0xC82CCCF1E9A091E0);
    AvalancheIs(0x29C6CA1D74A86893, 0x14E3650, 0x29C6CA1D75E65EC3, 0x421927CF45C156AB, 0x421927CF,
                0x421927CF07D87164);
    AvalancheIs(0x6D767937761403E4, 0x36BB3C9, 0x6D767937757FB02D, 0xB7490F224322A0C5, 0xB7490F22,
                0xB7490F22F46BAFE7);
    AvalancheIs(0x2A94FFCB3690FC64, 0x154A7FE, 0x2A94FFCB37C45B9A, 0xD1B6DDF7C75EE2CA, 0xD1B6DDF7,
                0xD1B6DDF716E83F3D);
  }

  lemma ProductsOf9Bytes()
    ensures Mult64To128(0x58983E033231224B, PRIME64_1) == U128(0x484FC10AED1438D, 0x36C12918B09530B7)
    ensures Mult64To128(0x27FF0BD516674DC, PRIME64_2) == U128(0x6D767937761403E4, 0x1E6B31869D2DA28)
  {
  }

  lemma HiTermOf9Bytes()
    ensures HiTerm(0xCB0A7E7097D23E5B) == 0x1A768EE6FC77CA4D
  {
  }

  lemma SumsOf9Bytes()
    ensures Add64(0x484FC10AED1438D, 0x200000000000000) == 0x684FC10AED1438D
    ensures Add64(0x36C12918B09530B7, 0x1A768EE6FC77CA4D) == 0x5137B7FFAD0CFB04
    ensures Mul64(0x5137B7FFAD0CFB04, PRIME64_2) == 0x28AE4CB2CCBE223C
    ensures Add64(0x1E6B31869D2DA28, 0x28AE4CB2CCBE223C) == 0x2A94FFCB3690FC64
  {
  }

  lemma Flips9To16Are()
    ensures BitflipLo9To16(KSecret(), 1) == 0x59973F0033362348 && BitflipHi9To16(KSecret(), 1) == 0xC202797692D63D59
  {
    hide KSecret, At64, Xor64;
    SecretSize();
    Secret32(); Secret48();
    XorsOf9Bytes1(); XorsOf9Bytes2(); XorsOf9Bytes3();
  }

  /** The XXH3 hashes, with seed 1, of nine bytes. */
  lemma Hash64Of9Bytes()
    ensures Hash64(WithSeed(1), [1, 2, 3, 4, 5, 6, 7, 8, 9]) == 0x421927CF07D87164
  {
    hide KSecret, At64, Xor64, Swap64, Mul128Fold64, Avalanche;
    Secret16(); Secret32(); Secret48();
    WordsOf9Bytes(); SwapsOf9Bytes(); StepsOf9Bytes();
    XorsOf9Bytes1(); XorsOf9Bytes2(); XorsOf9Bytes3();
  }

  lemma Hash128Of9Bytes()
    ensures Hash128(WithSeed(1), [1, 2, 3, 4, 5, 6, 7, 8, 9]) == U128(0xB7490F22F46BAFE7, 0xD1B6DDF716E83F3D)
  {
    hide KSecret, At64, Xor64, Add64, Mul64, HiTerm, Mult64To128, Swap64, Avalanche, BitflipLo9To16, BitflipHi9To16;
    WordsOf9Bytes(); SwapsOf9Bytes(); StepsOf9Bytes(); ProductsOf9Bytes(); HiTermOf9Bytes(); SumsOf9Bytes();
    Flips9To16Are();
    XorsOf9Bytes1(); XorsOf9Bytes2(); XorsOf9Bytes3();
  }

  lemma XorsOf32Seeded()
    ensures Xor64(0x519F49592B961BE3, 0x1550F851424E8855) == 0x44CFB10869D893B6
    ensures Xor64(0x3827C3B9B98EB66F, 0x1AF04EA39EF5BF6F) == 0x22D78D1A277B0900
    ensures Xor64(0x2E9674534ECCED96, 0x174B3A2) == 0x2E9674534FB85E34
    ensures Xor64(0x4938B7EB04063494, 0x4938B7EB) == 0x4938B7EB4D3E837F
    ensures Xor64(0x8B33EE8817BAE0AB, 0x4599F74) == 0x8B33EE8813E37FDF
    ensures Xor64(0x17FC28DCFAA0C6E7, 0x17FC28DC) == 0x17FC28DCED5CEE3B
  {
    hide Xor, Xor64;
    XorIs(0x519F49592B961BE3, 0x1550F851424E8855, 0x44CFB10869D893B6);
    XorIs(0x3827C3B9B98EB66F, 0x1AF04EA39EF5BF6F, 0x22D78D1A277B0900);
    XorIs(0x2E9674534ECCED96, 0x174B3A2, 0x2E9674534FB85E34);
    XorIs(0x4938B7EB04063494, 0x4938B7EB, 0x4938B7EB4D3E837F);
    XorIs(0x8B33EE8817BAE0AB, 0x4599F74, 0x8B33EE8813E37FDF);
    XorIs(0x17FC28DCFAA0C6E7, 0x17FC28DC, 0x17FC28DCED5CEE3B);
  }

  lemma StepsOf32Seeded()
    ensures Mul128Fold64(0xBE4BA423396CFEB9, 0x1CAD21F72C81017B) == 0x44CFB10869D893B6
    ensures Mul128Fold64(0xDB979083E96DD4DF, 0x1F67B3B7A4A44071) == 0x22D78D1A277B0900
    ensures Avalanche(0x2E9674534ECCED96) == 0x4938B7EB4D3E837F && Avalanche(0x8B33EE8817BAE0AB) == 0x17FC28DCED5CEE3B
  {
    hide Xor64, Mul128Fold64, Avalanche;
    XorsOf32Seeded();
    FoldIs(0xBE4BA423396CFEB9, 0x1CAD21F72C81017B, 0x519F49592B961BE3, 0x1550F851424E8855, 0x44CFB10869D893B6);
    FoldIs(0xDB979083E96DD4DF, 0x1F67B3B7A4A44071, 0x3827C3B9B98EB66F, 0x1AF04EA39EF5BF6F, 0x22D78D1A277B0900);
    AvalancheIs(0x2E9674534ECCED96, 0x174B3A2, 0x2E9674534FB85E34, 0x4938B7EB04063494, 0x4938B7EB,
                0x4938B7EB4D3E837F);
    AvalancheIs(0x8B33EE8817BAE0AB, 0x4599F74, 0x8B33EE8813E37FDF, 0x17FC28DCFAA0C6E7, 0x17FC28DC,
                0x17FC28DCED5CEE3B);
  }

  lemma MixesOf32Seeded()
    ensures Mix16B(Zeros(32), 0, KSecret(), 0, 1) == 0x44CFB10869D893B6
    ensures Mix16B(Zeros(32), 16, KSecret(), 16, 1) == 0x22D78D1A277B0900
  {
    hide KSecret, Zeros, At64, Xor64, Mul128Fold64;
    SecretSize();
    Secret0(); Secret16();
    ZeroWord(32, 0); ZeroWord(32, 8); ZeroWord(32, 16); ZeroWord(32, 24);
    NoSeed(0xBE4BA423396CFEB9); NoSeed(0x1CAD21F72C81017B); NoSeed(0xDB979083E96DD4DF); NoSeed(0x1F67B3B7A4A44071);
    StepsOf32Seeded();
  }

  lemma EndsOf32Seeded()
    ensures |KSecret()| == 192
    ensures MixEnds128(U128(0xC6EF3630BD7950E0, 0), Zeros(32), 0, KSecret(), 1)
         == U128(0xBBEE7392751E496, 0x22D78D1A277B0900)
  {
    hide KSecret, Zeros, At64, Xor64, Mix16B;
    SecretSize(); MixesOf32Seeded();
    ZeroWord(32, 0); ZeroWord(32, 8); ZeroWord(32, 16); ZeroWord(32, 24);
    XorWithZero(0xBBEE7392751E496); XorWithZero(0x22D78D1A277B0900);
  }

  lemma Product32()
    ensures Mul64(32, PRIME64_1) == 0xC6EF3630BD7950E0
  {
  }

  lemma OnePair(input: seq<u8>, secret: seq<u8>, seed: u64)
    requires |input| == 32 && |secret| >= SECRET_SIZE_MIN
    ensures Len17To128Hash128(input, secret, seed)
         == FinishMid128(MixEnds128(U128(Mul64(32, PRIME64_1), 0), input, 0, secret, seed), 32, seed)
  {
    hide MixEnds128, FinishMid128, Mul64;
  }

  lemma PairOf32Seeded()
    ensures Len17To128Hash128(Zeros(32), KSecret(), 1)
         == FinishMid128(U128(0xBBEE7392751E496, 0x22D78D1A277B0900), 32, 1)
  {
    hide KSecret, Zeros, Len17To128Hash128, MixEnds128, FinishMid128, Mul64;
    Product32(); EndsOf32Seeded();
    OnePair(Zeros(32), KSecret(), 1);
  }

  lemma FinishOf32Seeded()
    ensures FinishMid128(U128(0xBBEE7392751E496, 0x22D78D1A277B0900), 32, 1)
         == U128(0x4938B7EB4D3E837F, 0xE803D72312A311C5)
  {
    hide Avalanche, FinishMid128, Mul128Fold64;
    StepsOf32Seeded();
    assert Sub64(32, 1) == 31;
    FinishIs(0xBBEE7392751E496, 0x22D78D1A277B0900, 0x5BE79DCF1E3FE71A, 0x9BA9375126B27B00, 0x93A31967D2C87E91,
             0x2E9674534ECCED96, 0x8B33EE8817BAE0AB, 0x4938B7EB4D3E837F, 0x17FC28DCED5CEE3B, 32, 1);
  }

  /** The 128-bit hash, with seed 1, of 32 zero bytes. */
  lemma SeededHashOf32Zeros()
    ensures Hash128(WithSeed(1), Zeros(32)) == U128(0x4938B7EB4D3E837F, 0xE803D72312A311C5)
  {
    hide KSecret, Zeros, FinishMid128, Len17To128Hash128;
    PairOf32Seeded(); FinishOf32Seeded();
  }
}
