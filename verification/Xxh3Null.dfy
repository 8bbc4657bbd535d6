/** The all-zero hash, which the tables take for an unreserved bucket: which keys of up to 16 bytes have
    it. */
module Xxh3Null {
  import opened Words
  import opened Literals
  import opened Mult128
  import opened Xxh3Kernel
  import opened Xxh3Short
  import opened Xxh3OneShot
  import opened Xxh3Inverse

  // ---- keys of 8 bytes ----------------------------------------------------------------

  /** Exactly one 8-byte key has the all-zero hash: the difference of two words of the default
      secret. */
  function NullKeyBytes(): (b: seq<u8>)
    ensures |b| == 8
  {
    WriteLE64(Bitflip4To8(KSecret(), 0))
  }

  lemma OneKeyHashesToNull(input: seq<u8>)
    requires |input| == 8
    ensures Hash128(Plain, input) == U128(0, 0) <==> input == NullKeyBytes()
  {
    hide KSecret, Len4To8Hash128;
    NullKeyHash(KSecret(), 0);
    ShortInputsDoNotCollide(Plain, input, NullKeyBytes());
  }

  lemma NullKeyHash(secret: seq<u8>, seed: u64)
    requires |secret| >= SECRET_SIZE_MIN
    ensures Len4To8Hash128(WriteLE64(Bitflip4To8(secret, seed)), secret, seed) == U128(0, 0)
  {
    hide WriteLE64, At32, Bitflip4To8;
    var flip := Bitflip4To8(secret, seed);
    var input := WriteLE64(flip);
    assert Join(At32(input, 0), At32(input, 4)) == flip by { JoinHalves(flip); }
    XorSelf(flip);
    assert Mult64To128(0, PRIME64_1 + 32) == U128(0, 0);
    ZeroFinish();
  }

  lemma JoinHalves(x: u64)
    ensures Join(At32(WriteLE64(x), 0), At32(WriteLE64(x), 4)) == x
  {
    hide WriteLE, ReadLE;
    var b := WriteLE64(x);
    ReadWriteLE64(x);
    assert b[..8] == b[0..4] + b[4..8];
    ReadLEConcat(b[0..4], b[4..8]);
    assert b[0..][..4] == b[0..4] && b[4..][..4] == b[4..8];
    Pow2Literals();
  }

  lemma {:induction false} ReadLEConcat(a: seq<u8>, b: seq<u8>)
    ensures ReadLE(a + b) == ReadLE(a) + Pow2(8 * |a|) * ReadLE(b)
  {
    if a == [] {
      assert a + b == b;
    } else {
      ReadLEConcat(a[1..], b);
      assert (a + b)[1..] == a[1..] + b;
      ByteStep(|a| - 1);
      Reassociate(Pow2(8 * (|a| - 1)), ReadLE(b));
    }
  }

  lemma Reassociate(p: nat, r: nat)
    ensures 0x100 * (p * r) == (0x100 * p) * r
  {
  }

  lemma ZeroFinish()
    ensures Finish4To8(U128(0, 0)) == U128(0, 0)
  {
    hide XorShift64, Xor64, Shr, Mul64;
    ZeroShift(35); ZeroShift(28); ZeroShift(37); ZeroShift(32);
    ShrOfZero(3);
    ZeroProduct(MX_PRIME); ZeroProduct(AVALANCHE_PRIME); ZeroProduct(2);
    assert Xor64(0, 0) == 0 by { ZeroXor(); }
  }

  lemma ZeroXor()
    ensures Xor64(0, 0) == 0
  {
  }

  lemma ZeroProduct(p: u64)
    ensures Mul64(0, p) == 0 && Mul64(p, 0) == 0
  {
  }

  lemma ZeroShift(s: nat)
    ensures XorShift64(0, s) == 0
  {
    ShrOfZero(s);
  }

  lemma {:induction false} ShrOfZero(s: nat)
    ensures Shr(0, s) == 0
  {
    if s > 0 { ShrOfZero(s - 1); }
  }

  // ---- bytes --------------------------------------------------------------------------

  /** The bytes of an exclusive or are the exclusive ors of the bytes. */
  lemma {:induction false} BytesOfXor(a: nat, b: nat, n: nat, k: nat)
    requires k < n
    ensures WriteLE(Xor(a, b), n)[k] == Xor(WriteLE(a, n)[k], WriteLE(b, n)[k])
  {
    Pow2Of8();
    XorConcat(a / 0x100, b / 0x100, a % 0x100, b % 0x100, 8);
    XorBound(a % 0x100, b % 0x100, 8);
    DivUnique(Xor(a, b), 0x100, Xor(a / 0x100, b / 0x100), Xor(a % 0x100, b % 0x100));
    hide Xor;
    if k > 0 { BytesOfXor(a / 0x100, b / 0x100, n - 1, k - 1); }
  }

  predicate Odd(b: int) { b % 2 == 1 }

  /** The lowest bit of byte k of a word. */
  predicate Bit(x: u64, k: nat)
    requires k < 8
  {
    Odd(WriteLE64(x)[k])
  }

  lemma BitOfXor(a: u64, b: u64, k: nat)
    requires k < 8
    ensures Bit(Xor64(a, b), k) == (Bit(a, k) != Bit(b, k))
  {
    var x, y := WriteLE64(a)[k], WriteLE64(b)[k];
    BytesOfXor(a, b, 8, k);
    XorBits(x, y);
    hide Xor, WriteLE;
    OddSum(x, y);
  }

  lemma OddSum(x: int, y: int)
    ensures Odd(x + y) == (Odd(x) != Odd(y))
  {
  }

  lemma BitOfWord(b: seq<u8>, off: nat, k: nat)
    requires off + 8 <= |b| && k < 8
    ensures Bit(At64(b, off), k) == Odd(b[off + k])
  {
    WriteAt64(b, off);
    assert b[off..off + 8][k] == b[off + k];
    hide WriteLE64, At64;
  }

  /** x without its last k bytes. */
  function Drop(x: nat, k: nat): nat
    decreases k
  {
    if k == 0 then x else Drop(x / 0x100, k - 1)
  }

  lemma {:induction false} ByteIs(x: nat, n: nat, k: nat)
    requires k < n
    ensures WriteLE(x, n)[k] == Drop(x, k) % 0x100
  {
    if k > 0 { ByteIs(x / 0x100, n - 1, k - 1); }
  }

  // ---- keys of 9 to 16 bytes ----------------------------------------------------------

  lemma ZeroUnfinish()
    ensures Unfinish9To16(U128(0, 0)) == U128(0, 0)
  {
    hide Xor64, Mul64, Shr, Swap64, Mult64To128;
    ZeroUnShift(32); ZeroUnShift(37);
    ZeroProduct(AVALANCHE_INV); ZeroProduct(PRIME64_2_INV);
    assert Mult64To128(0, PRIME64_2).high == 0 by { ZeroHigh(PRIME64_2); }
    assert Swap64(0) == 0 by { ZeroSwap(); }
    assert Xor64(0, 0) == 0 by { ZeroXor(); }
  }

  lemma ZeroHigh(p: u64)
    ensures Mult64To128(0, p) == U128(0, 0)
  {
  }

  lemma ZeroUnShift(s: nat)
    ensures UnXorShift64(0, s) == 0
  {
    ShrOfZero(s); ShrOfZero(s + s);
    ZeroXor();
  }

  lemma ZeroSwap()
    ensures Swap64(0) == 0
  {
    hide Swap64;
    Swap64Is(0, 0, [0, 0, 0, 0, 0, 0, 0, 0]);
  }

  /** The steps that undo the all-zero hash.  The length gives s; x and u are the input words before the
      secret is mixed in. */
  predicate NullSteps(s: u64, x: u64, q: nat, high: u64, u: u64)
  {
    && s * PRIME64_1_INV == 0x1_0000_0000_0000_0000 * q + x
    && x * PRIME64_1 == 0x1_0000_0000_0000_0000 * high + s
    && high > 0 && u + Lo32(u) * (PRIME32_2 - 1) == 0x1_0000_0000_0000_0000 - high
  }

  function LengthTerm(len: nat): (s: u64)
    requires 9 <= len <= 16
    ensures s == Sub64(0, (len - 1) * 0x40_0000_0000_0000)
  {
    0x1_0000_0000_0000_0000 - (len - 1) * 0x40_0000_0000_0000
  }

  lemma ProductIs(a: u64, p: u64, high: nat, low: u64)
    requires a * p == 0x1_0000_0000_0000_0000 * high + low
    ensures Mul64(a, p) == low && Mult64To128(a, p).high == high
  {
    DivUnique(a * p, 0x1_0000_0000_0000_0000, high, low);
  }

  lemma NullNumbers(s: u64, x: u64, q: nat, high: u64, u: u64)
    requires NullSteps(s, x, q, high, u)
    ensures Mul64(s, PRIME64_1_INV) == x && Mult64To128(x, PRIME64_1).high == high && Sub64(0, high) == HiTerm(u)
  {
    hide Mul64, Sub64, Mult64To128;
    ProductIs(s, PRIME64_1_INV, q, x);
    ProductIs(x, PRIME64_1, high, s);
    var term := Mul32To64(Lo32(u), PRIME32_2 - 1);
    SubIsAdd(u, term, high);
  }

  lemma SubIsAdd(u: u64, term: u64, high: u64)
    requires high > 0 && u + term == 0x1_0000_0000_0000_0000 - high
    ensures Sub64(0, high) == Add64(u, term)
  {
  }

  lemma NullWords(len: nat, x: u64, q: nat, high: u64, u: u64)
    requires 9 <= len <= 16 && NullSteps(LengthTerm(len), x, q, high, u)
    ensures var hi := Xor64(u, BitflipHi9To16(KSecret(), 0));
            Words9To16(U128(0, 0), len, KSecret(), 0) == (Xor64(Xor64(x, BitflipLo9To16(KSecret(), 0)), hi), hi)
  {
    ZeroUnfinish();
    NullNumbers(LengthTerm(len), x, q, high, u);
    hide Xor64, Unfinish9To16, BitflipLo9To16, BitflipHi9To16, HiTerm, UnHiTerm, KSecret, Mul64, Mult64To128, Sub64,
         NullSteps, LengthTerm;
    UnHiTermOfHiTerm(u);
  }

  lemma FlipBits(secret: seq<u8>, k: nat)
    requires |secret| >= SECRET_SIZE_MIN && k < 8
    ensures Bit(BitflipLo9To16(secret, 0), k) == (Odd(secret[32 + k]) != Odd(secret[40 + k]))
    ensures Bit(BitflipHi9To16(secret, 0), k) == (Odd(secret[48 + k]) != Odd(secret[56 + k]))
  {
    hide Xor64, At64, Bit, Odd;
    BitOfWord(secret, 32, k); BitOfWord(secret, 40, k); BitOfWord(secret, 48, k); BitOfWord(secret, 56, k);
    BitOfXor(At64(secret, 32), At64(secret, 40), k); BitOfXor(At64(secret, 48), At64(secret, 56), k);
  }

  /** Bits of the two words that the all-zero hash leads to. */
  function HighBit(u: u64, secret: seq<u8>, k: nat): bool
    requires k < 8 && |secret| >= SECRET_SIZE_MIN
  {
    Odd(Drop(u, k)) != (Odd(secret[48 + k]) != Odd(secret[56 + k]))
  }

  function LowBit(x: u64, u: u64, secret: seq<u8>, k: nat): bool
    requires k < 8 && |secret| >= SECRET_SIZE_MIN
  {
    (Odd(Drop(x, k)) != (Odd(secret[32 + k]) != Odd(secret[40 + k]))) != HighBit(u, secret, k)
  }

  lemma NullBits(x: u64, u: u64, secret: seq<u8>, k: nat)
    requires k < 8 && |secret| >= SECRET_SIZE_MIN
    ensures var hi := Xor64(u, BitflipHi9To16(secret, 0));
            && Bit(hi, k) == HighBit(u, secret, k)
            && Bit(Xor64(Xor64(x, BitflipLo9To16(secret, 0)), hi), k) == LowBit(x, u, secret, k)
  {
    var flipLo, flipHi := BitflipLo9To16(secret, 0), BitflipHi9To16(secret, 0);
    FlipBits(secret, k);
    BitDrops(x, k); BitDrops(u, k);
    hide Xor64, Bit, Odd, BitflipLo9To16, BitflipHi9To16, Drop;
    BitOfXor(x, flipLo, k); BitOfXor(u, flipHi, k); BitOfXor(Xor64(x, flipLo), Xor64(u, flipHi), k);
  }

  lemma BitDrops(x: u64, k: nat)
    requires k < 8
    ensures Bit(x, k) == Odd(Drop(x, k))
  {
    ByteIs(x, 8, k);
    hide Drop, WriteLE, Odd;
    OddLow(Drop(x, k));
  }

  lemma OddLow(d: nat)
    ensures Odd(d % 0x100) == Odd(d)
  {
  }

  /** Byte j of the last eight bytes is byte len - 8 + j of the first eight.  There is no input for a
      length for which the two words do not overlap like this. */
  lemma NoNull(input: seq<u8>, x: u64, q: nat, high: u64, u: u64, j: nat)
    requires 9 <= |input| <= 15 && j < 16 - |input| && NullSteps(LengthTerm(|input|), x, q, high, u)
    requires LowBit(x, u, KSecret(), |input| - 8 + j) != HighBit(u, KSecret(), j)
    ensures Len9To16Hash128(input, KSecret(), 0) != U128(0, 0)
  {
    var k, secret := |input| - 8 + j, KSecret();
    assert |secret| >= SECRET_SIZE_MIN;
    hide *;
    Words9To16OfHash(input, secret, 0);
    NullWords(|input|, x, q, high, u);
    OverlapBits(input, k, j);
    NullBits(x, u, secret, k); NullBits(x, u, secret, j);
  }

  lemma OverlapBits(input: seq<u8>, k: nat, j: nat)
    requires 9 <= |input| <= 15 && j < 16 - |input| && k == |input| - 8 + j
    ensures Bit(At64(input, 0), k) == Bit(At64(input, |input| - 8), j)
  {
    hide *;
    BitOfWord(input, 0, k); BitOfWord(input, |input| - 8, j);
  }

  lemma {:induction false} DropDrop(x: nat, i: nat, j: nat)
    ensures Drop(Drop(x, i), j) == Drop(x, i + j)
    decreases i
  {
    if i > 0 { DropDrop(x / 0x100, i - 1, j); }
  }

  lemma TopByte(x: u64, upper: nat, top: nat)
    requires x / 0x1_0000_0000 == upper && upper / 0x100_0000 == top
    ensures Drop(x, 7) == top
  {
    FourthDrop(x);
    ThirdDrop(upper);
    DropDrop(x, 4, 3);
  }

  lemma FourthDrop(x: nat)
    ensures Drop(x, 4) == x / 0x1_0000_0000
  {
    assert Drop(x, 4) == x / 0x100 / 0x100 / 0x100 / 0x100;
  }

  lemma ThirdDrop(x: nat)
    ensures Drop(x, 3) == x / 0x100_0000
  {
    assert Drop(x, 3) == x / 0x100 / 0x100 / 0x100;
  }

  lemma RowBytes(secret: seq<u8>, k: nat)
    requires secret == KSecret() && k < 11
    ensures |secret| == 192
    ensures secret[16 * k + 0] == SecretRow(k)[0] && secret[16 * k + 1] == SecretRow(k)[1]
    ensures secret[16 * k + 2] == SecretRow(k)[2] && secret[16 * k + 3] == SecretRow(k)[3]
    ensures secret[16 * k + 4] == SecretRow(k)[4] && secret[16 * k + 5] == SecretRow(k)[5]
    ensures secret[16 * k + 6] == SecretRow(k)[6] && secret[16 * k + 7] == SecretRow(k)[7]
    ensures secret[16 * k + 8] == SecretRow(k)[8] && secret[16 * k + 9] == SecretRow(k)[9]
    ensures secret[16 * k + 10] == SecretRow(k)[10] && secret[16 * k + 11] == SecretRow(k)[11]
    ensures secret[16 * k + 12] == SecretRow(k)[12] && secret[16 * k + 13] == SecretRow(k)[13]
    ensures secret[16 * k + 14] == SecretRow(k)[14] && secret[16 * k + 15] == SecretRow(k)[15]
  {
    hide KSecret, SecretRow;
    SecretLength();
    SecretBytes(k, 0); SecretBytes(k, 1); SecretBytes(k, 2); SecretBytes(k, 3);
    SecretBytes(k, 4); SecretBytes(k, 5); SecretBytes(k, 6); SecretBytes(k, 7);
    SecretBytes(k, 8); SecretBytes(k, 9); SecretBytes(k, 10); SecretBytes(k, 11);
    SecretBytes(k, 12); SecretBytes(k, 13); SecretBytes(k, 14); SecretBytes(k, 15);
  }

  lemma SecondBits(secret: seq<u8>)
    requires secret == KSecret()
    ensures !Odd(secret[16]) && !Odd(secret[17]) && Odd(secret[18]) && Odd(secret[19])
    ensures Odd(secret[20]) && !Odd(secret[21]) && Odd(secret[22]) && Odd(secret[23])
    ensures !Odd(secret[24]) && !Odd(secret[25]) && !Odd(secret[26]) && !Odd(secret[27])
    ensures Odd(secret[28]) && Odd(secret[29]) && Odd(secret[30]) && Odd(secret[31])
  {
    hide KSecret;
    RowBytes(secret, 1);
  }

  lemma ThirdBits(secret: seq<u8>)
    requires secret == KSecret()
    ensures Odd(secret[32]) && Odd(secret[33]) && !Odd(secret[34]) && !Odd(secret[35])
    ensures !Odd(secret[36]) && !Odd(secret[37]) && Odd(secret[38]) && !Odd(secret[39])
    ensures !Odd(secret[40]) && !Odd(secret[41]) && !Odd(secret[42]) && Odd(secret[43])
    ensures !Odd(secret[44]) && Odd(secret[45]) && !Odd(secret[46]) && Odd(secret[47])
  {
    hide KSecret;
    RowBytes(secret, 2);
  }

  lemma FourthBits(secret: seq<u8>)
    requires secret == KSecret()
    ensures !Odd(secret[48]) && !Odd(secret[49]) && !Odd(secret[50]) && !Odd(secret[51])
    ensures Odd(secret[52]) && Odd(secret[53]) && !Odd(secret[54]) && !Odd(secret[55])
    ensures !Odd(secret[56]) && Odd(secret[57]) && !Odd(secret[58]) && !Odd(secret[59])
    ensures Odd(secret[60]) && !Odd(secret[61]) && !Odd(secret[62]) && !Odd(secret[63])
  {
    hide KSecret;
    RowBytes(secret, 3);
  }

  lemma Steps9()
    ensures LengthTerm(9) == 0xFE00000000000000
    ensures NullSteps(0xFE00000000000000, 0x9200000000000000, 0x8763AA1CA556580, 0x5A3BA3673E607980, 0x568BCB6F976FCD80)
  {
  }

  lemma Bits9()
    ensures !Odd(Drop(0x9200000000000000, 1)) && Odd(Drop(0x568BCB6F976FCD80, 1)) && !Odd(Drop(0x568BCB6F976FCD80, 0))
  {
  }

  lemma NotNull9(input: seq<u8>)
    requires |input| == 9
    ensures Len9To16Hash128(input, KSecret(), 0) != U128(0, 0)
  {
    hide KSecret, Len9To16Hash128, NullSteps, LengthTerm, Drop, Odd;
    Steps9(); Bits9(); ThirdBits(KSecret()); FourthBits(KSecret());
    NoNull(input, 0x9200000000000000, 0x8763AA1CA556580, 0x5A3BA3673E607980, 0x568BCB6F976FCD80, 0);
  }

  lemma Steps10()
    ensures LengthTerm(10) == 0xFDC0000000000000
    ensures NullSteps(0xFDC0000000000000, 0xC440000000000000, 0x87418CF7D48B6C9, 0x794A070A56EA0201, 0x2FE643AAA5F242B9)
  {
  }

  lemma Bits10()
    ensures !Odd(Drop(0xC440000000000000, 2)) && !Odd(Drop(0x2FE643AAA5F242B9, 2)) && Odd(Drop(0x2FE643AAA5F242B9, 0))
  {
  }

  lemma NotNull10(input: seq<u8>)
    requires |input| == 10
    ensures Len9To16Hash128(input, KSecret(), 0) != U128(0, 0)
  {
    hide KSecret, Len9To16Hash128, NullSteps, LengthTerm, Drop, Odd;
    Steps10(); Bits10(); ThirdBits(KSecret()); FourthBits(KSecret());
    NoNull(input, 0xC440000000000000, 0x87418CF7D48B6C9, 0x794A070A56EA0201, 0x2FE643AAA5F242B9, 0);
  }

  lemma Steps11()
    ensures LengthTerm(11) == 0xFD80000000000000
    ensures NullSteps(0xFD80000000000000, 0xF680000000000000, 0x871F6FD303C0812, 0x98586AAD6F738A82, 0x940BBE5B474B7F2)
  {
  }

  lemma Bits11()
    ensures !Odd(Drop(0xF680000000000000, 3)) && !Odd(Drop(0x940BBE5B474B7F2, 3)) && !Odd(Drop(0x940BBE5B474B7F2, 0))
  {
  }

  lemma NotNull11(input: seq<u8>)
    requires |input| == 11
    ensures Len9To16Hash128(input, KSecret(), 0) != U128(0, 0)
  {
    hide KSecret, Len9To16Hash128, NullSteps, LengthTerm, Drop, Odd;
    Steps11(); Bits11(); ThirdBits(KSecret()); FourthBits(KSecret());
    NoNull(input, 0xF680000000000000, 0x871F6FD303C0812, 0x98586AAD6F738A82, 0x940BBE5B474B7F2, 0);
  }

  lemma Steps12()
    ensures LengthTerm(12) == 0xFD40000000000000
    ensures NullSteps(0xFD40000000000000, 0x28C0000000000000, 0x86FD52AE32F595C, 0x192F549F0211487C, 0xCDF21E852F8A219C)
  {
  }

  lemma Bits12()
    ensures !Odd(Drop(0x28C0000000000000, 4)) && Odd(Drop(0xCDF21E852F8A219C, 4)) && !Odd(Drop(0xCDF21E852F8A219C, 0))
  {
  }

  lemma NotNull12(input: seq<u8>)
    requires |input| == 12
    ensures Len9To16Hash128(input, KSecret(), 0) != U128(0, 0)
  {
    hide KSecret, Len9To16Hash128, NullSteps, LengthTerm, Drop, Odd;
    Steps12(); Bits12(); ThirdBits(KSecret()); FourthBits(KSecret());
    NoNull(input, 0x28C0000000000000, 0x86FD52AE32F595C, 0x192F549F0211487C, 0xCDF21E852F8A219C, 0);
  }

  lemma Steps13()
    ensures LengthTerm(13) == 0xFD00000000000000
    ensures NullSteps(0xFD00000000000000, 0x5B00000000000000, 0x86DB3589622AAA5, 0x383DB8421A9AD0FD, 0xA74C96C03E0C96D5)
  {
  }

  lemma Bits13()
    ensures !Odd(Drop(0x5B00000000000000, 5)) && !Odd(Drop(0xA74C96C03E0C96D5, 5)) && Odd(Drop(0xA74C96C03E0C96D5, 0))
  {
  }

  lemma NotNull13(input: seq<u8>)
    requires |input| == 13
    ensures Len9To16Hash128(input, KSecret(), 0) != U128(0, 0)
  {
    hide KSecret, Len9To16Hash128, NullSteps, LengthTerm, Drop, Odd;
    Steps13(); Bits13(); ThirdBits(KSecret()); FourthBits(KSecret());
    NoNull(input, 0x5B00000000000000, 0x86DB3589622AAA5, 0x383DB8421A9AD0FD, 0xA74C96C03E0C96D5, 0);
  }

  lemma Steps14()
    ensures LengthTerm(14) == 0xFCC0000000000000
    ensures NullSteps(0xFCC0000000000000, 0x8D40000000000000, 0x86B91864915FBEE, 0x574C1BE53324597E, 0x80A70EFB4C8F0C0E)
  {
  }

  lemma Bits14()
    ensures Odd(Drop(0x8D40000000000000, 7)) && !Odd(Drop(0x80A70EFB4C8F0C0E, 7)) && !Odd(Drop(0x80A70EFB4C8F0C0E, 1))
  {
  }

  lemma NotNull14(input: seq<u8>)
    requires |input| == 14
    ensures Len9To16Hash128(input, KSecret(), 0) != U128(0, 0)
  {
    hide KSecret, Len9To16Hash128, NullSteps, LengthTerm, Drop, Odd;
    Steps14(); Bits14(); ThirdBits(KSecret()); FourthBits(KSecret());
    NoNull(input, 0x8D40000000000000, 0x86B91864915FBEE, 0x574C1BE53324597E, 0x80A70EFB4C8F0C0E, 1);
  }

  lemma Steps15()
    ensures LengthTerm(15) == 0xFC80000000000000
    ensures NullSteps(0xFC80000000000000, 0xBF80000000000000, 0x8696FB3FC094D37, 0x765A7F884BADE1FF, 0x5A0187365B118147)
  {
  }

  lemma Bits15()
    ensures Odd(Drop(0xBF80000000000000, 7)) && !Odd(Drop(0x5A0187365B118147, 7)) && Odd(Drop(0x5A0187365B118147, 0))
  {
  }

  lemma NotNull15(input: seq<u8>)
    requires |input| == 15
    ensures Len9To16Hash128(input, KSecret(), 0) != U128(0, 0)
  {
    hide KSecret, Len9To16Hash128, NullSteps, LengthTerm, Drop, Odd;
    Steps15(); Bits15(); ThirdBits(KSecret()); FourthBits(KSecret());
    NoNull(input, 0xBF80000000000000, 0x8696FB3FC094D37, 0x765A7F884BADE1FF, 0x5A0187365B118147, 0);
  }

  /** Exactly one key of 16 bytes has the all-zero hash, too. */
  function NullKey16(): (b: seq<u8>)
    ensures |b| == 16
  {
    var (lo, hi) := Words9To16(U128(0, 0), 16, KSecret(), 0);
    WriteLE64(lo) + WriteLE64(hi)
  }

  lemma NullKey16IsNull()
    ensures Len9To16Hash128(NullKey16(), KSecret(), 0) == U128(0, 0)
  {
    var x, q, high, u := 0xF1C0000000000000, 0x8674DE1AEFC9E80, 0x9568E32B64376A80, 0x335BFF716993F680;
    var s := LengthTerm(16);
    assert s == 0xFC40000000000000 && NullSteps(0xFC40000000000000, x, q, high, u);
    NullWords(16, x, q, high, u);
    NullNumbers(s, x, q, high, u);
    ProductIs(x, PRIME64_1, high, s);
    hide NullSteps;
    NullKeyOfWords(x, high, u, s);
  }

  /** Forward, from the words that the all-zero hash leads back to. */
  lemma NullKeyOfWords(x: u64, high: u64, u: u64, s: u64)
    requires var hi := Xor64(u, BitflipHi9To16(KSecret(), 0));
             Words9To16(U128(0, 0), 16, KSecret(), 0) == (Xor64(Xor64(x, BitflipLo9To16(KSecret(), 0)), hi), hi)
    requires s == LengthTerm(16) && Mult64To128(x, PRIME64_1) == U128(s, high) && Sub64(0, high) == HiTerm(u)
    ensures Len9To16Hash128(NullKey16(), KSecret(), 0) == U128(0, 0)
  {
    var secret, input := KSecret(), NullKey16();
    var flipLo, flipHi := BitflipLo9To16(secret, 0), BitflipHi9To16(secret, 0);
    var (lo, hi) := Words9To16(U128(0, 0), 16, secret, 0);
    WordsOfConcat(lo, hi);
    SumsVanish(s, high);
    ZeroFinish9To16();
    hide *;
    Xor64Cancel(Xor64(x, flipLo), hi);
    Xor64Cancel(x, flipLo);
    Xor64Cancel(u, flipHi);
    Len16Hash(input, secret, lo, hi);
  }

  lemma Len16Hash(input: seq<u8>, secret: seq<u8>, lo: u64, hi: u64)
    requires |input| == 16 && |secret| >= SECRET_SIZE_MIN && At64(input, 0) == lo && At64(input, 8) == hi
    ensures Len9To16Hash128(input, secret, 0)
         == (var m128 := Mult64To128(Xor64(Xor64(lo, hi), BitflipLo9To16(secret, 0)), PRIME64_1);
             Finish9To16(U128(Add64(m128.low, 15 * 0x40_0000_0000_0000),
                              Add64(m128.high, HiTerm(Xor64(hi, BitflipHi9To16(secret, 0)))))))
  {
  }

  lemma WordsOfConcat(lo: u64, hi: u64)
    ensures At64(WriteLE64(lo) + WriteLE64(hi), 0) == lo && At64(WriteLE64(lo) + WriteLE64(hi), 8) == hi
  {
    var b := WriteLE64(lo) + WriteLE64(hi);
    assert b[0..][..8] == WriteLE64(lo)[..8] && b[8..][..8] == WriteLE64(hi)[..8];
    ReadWriteLE64(lo); ReadWriteLE64(hi);
    hide WriteLE64, ReadLE;
  }

  lemma SumsVanish(s: u64, high: u64)
    requires s == LengthTerm(16)
    ensures Add64(s, 15 * 0x40_0000_0000_0000) == 0 && Add64(high, Sub64(0, high)) == 0
  {
  }

  lemma ZeroFinish9To16()
    ensures Finish9To16(U128(0, 0)) == U128(0, 0)
  {
    ZeroSwap(); ZeroXor(); ZeroHigh(PRIME64_2);
    ZeroShift(37); ZeroShift(32); ZeroProduct(AVALANCHE_PRIME); ZeroProduct(PRIME64_2);
    hide XorShift64, Xor64, Mul64, Mult64To128, Swap64;
  }

  // ---- keys of up to 7 bytes ----------------------------------------------------------

  lemma ZeroUnfinish4To8()
    ensures Unfinish4To8(U128(0, 0)) == 0
  {
    ZeroUnShift(32); ZeroUnShift(37); ZeroUnShift(28); ZeroUnShift(35);
    ZeroProduct(AVALANCHE_INV); ZeroProduct(MX_INV);
    ShrOfZero(3); ZeroXor();
    hide UnXorShift64, Xor64, Mul64, Shr;
  }

  lemma FlipBits4To8(k: nat)
    requires k < 8
    ensures Bit(Bitflip4To8(KSecret(), 0), k) == (Odd(KSecret()[16 + k]) != Odd(KSecret()[24 + k]))
  {
    var secret := KSecret();
    var flip := Xor64(At64(secret, 16), At64(secret, 24));
    NoSeed(flip);
    assert Bitflip4To8(secret, 0) == flip by { hide Xor64, At64, KSecret, SpreadSeed, Add64; }
    hide Xor64, At64, KSecret, Bit, Odd, Bitflip4To8;
    BitOfWord(secret, 16, k); BitOfWord(secret, 24, k);
    BitOfXor(At64(secret, 16), At64(secret, 24), k);
  }

  lemma NoSeed(flip: u64)
    ensures Add64(flip, SpreadSeed(0)) == flip
  {
    ZeroSwap32();
    XorWithZero(0);
    hide Swap32, Xor64;
    assert SpreadSeed(0) == 0;
    AddZero(flip);
  }

  lemma ZeroSwap32()
    ensures Swap32(0) == 0
  {
    hide Swap32;
    Swap32Is(0, 0, [0, 0, 0, 0]);
  }

  lemma JoinBytes(lo: u32, hi: u32)
    ensures WriteLE64(Join(lo, hi)) == WriteLE(lo, 4) + WriteLE(hi, 4)
  {
    var b := WriteLE(lo, 4) + WriteLE(hi, 4);
    HalvesRead(lo, hi);
    hide WriteLE, ReadLE;
    WriteReadLE(b);
  }

  lemma HalvesRead(lo: u32, hi: u32)
    ensures ReadLE(WriteLE(lo, 4) + WriteLE(hi, 4)) == Join(lo, hi)
  {
    Pow2Literals();
    var p := Pow2(8 * 4);
    assert p == 0x1_0000_0000;
    hide WriteLE, ReadLE, Pow2;
    ReadWriteLE(lo, 4); ReadWriteLE(hi, 4);
    ReadLEConcat(WriteLE(lo, 4), WriteLE(hi, 4));
  }

  /** In the joined word the overlapping bytes of a short input occur twice. */
  lemma JoinedOverlap(input: seq<u8>, joined: u64, j: nat)
    requires 4 <= |input| <= 7 && j < 8 - |input|
    requires joined == Join(At32(input, 0), At32(input, |input| - 4))
    ensures Bit(joined, |input| - 4 + j) == Bit(joined, 4 + j)
  {
    JoinBytes(At32(input, 0), At32(input, |input| - 4));
    WriteAt32(input, 0); WriteAt32(input, |input| - 4);
    hide Join, At32, WriteLE, Odd;
  }

  lemma NoNull4To7(input: seq<u8>, j: nat)
    requires 4 <= |input| <= 7 && j < 8 - |input|
    requires Bit(Bitflip4To8(KSecret(), 0), |input| - 4 + j) != Bit(Bitflip4To8(KSecret(), 0), 4 + j)
    ensures Len4To8Hash128(input, KSecret(), 0) != U128(0, 0)
  {
    var secret, len := KSecret(), |input|;
    assert |secret| >= SECRET_SIZE_MIN;
    var flip := Bitflip4To8(secret, 0);
    ZeroUnfinish4To8();
    assert Joined4To8(U128(0, 0), len, secret, 0) == flip by {
      hide Bitflip4To8, KSecret, Unfinish4To8, MultiplierInverse;
      ZeroProduct(MultiplierInverse(len));
      XorWithZero(flip);
    }
    hide *;
    Joined4To8OfHash(input, secret, 0);
    if Len4To8Hash128(input, secret, 0) == U128(0, 0) { JoinedOverlap(input, flip, j); }
  }

  lemma FlipIs()
    ensures !Bit(Bitflip4To8(KSecret(), 0), 1) && Bit(Bitflip4To8(KSecret(), 0), 2)
    ensures Bit(Bitflip4To8(KSecret(), 0), 3) && !Bit(Bitflip4To8(KSecret(), 0), 4)
    ensures Bit(Bitflip4To8(KSecret(), 0), 5) && !Bit(Bitflip4To8(KSecret(), 0), 6)
  {
    hide *;
    SecondBits(KSecret());
    FlipBits4To8(1); FlipBits4To8(2); FlipBits4To8(3); FlipBits4To8(4); FlipBits4To8(5); FlipBits4To8(6);
  }

  lemma NotNull4To7(input: seq<u8>)
    requires 4 <= |input| <= 7
    ensures Len4To8Hash128(input, KSecret(), 0) != U128(0, 0)
  {
    hide *;
    FlipIs();
    if |input| == 4 { NoNull4To7(input, 1); }
    else if |input| == 5 { NoNull4To7(input, 2); }
    else if |input| == 6 { NoNull4To7(input, 0); }
    else { NoNull4To7(input, 0); }
  }

  lemma ZeroUnAvalanche()
    ensures UnXxh64Avalanche(0) == 0
  {
    ZeroUnShift(32); ZeroUnShift(29); ZeroUnShift(33);
    ZeroProduct(PRIME64_3_INV); ZeroProduct(PRIME64_2_INV);
    hide UnXorShift64, Mul64;
  }

  /** The avalanche is zero for zero only. */
  lemma AvalancheOfNonZero(h: u64)
    ensures Xxh64Avalanche(h) == 0 ==> h == 0
  {
    Xxh64AvalancheInverse(h);
    ZeroUnAvalanche();
    hide *;
  }

  lemma NotNull1To3(input: seq<u8>)
    requires 1 <= |input| <= 3
    ensures Len1To3Hash128(input, KSecret(), 0) != U128(0, 0)
  {
    var secret := KSecret();
    assert |secret| >= SECRET_SIZE_MIN;
    hide *;
    var flip := Xor32(At32(secret, 0), At32(secret, 4));
    LowOf1To3(input, secret, 0);
    AddZero(flip);
    NotFlipped(input, flip);
  }

  lemma NotFlipped(input: seq<u8>, flip: u32)
    requires 1 <= |input| <= 3 && flip == Xor32(At32(KSecret(), 0), At32(KSecret(), 4))
    ensures Xxh64Avalanche(Xor64(Combined(input), flip)) != 0
  {
    hide *;
    FlipIsLarge();
    SecondByte(input);
    AvalancheOfNonZero(Xor64(Combined(input), flip));
    Xor64Cancel(Combined(input), flip);
    XorWithZero(flip);
  }

  lemma LowOf1To3(input: seq<u8>, secret: seq<u8>, seed: u64)
    requires 1 <= |input| <= 3 && |secret| >= SECRET_SIZE_MIN
    ensures Len1To3Hash128(input, secret, seed).low
         == Xxh64Avalanche(Xor64(Combined(input), Add64(Xor32(At32(secret, 0), At32(secret, 4)), seed)))
  {
    hide Xor32, Xor64, At32, Combined, Xxh64Avalanche, Rotl32, Swap32, Add64, Sub64;
  }

  lemma AddZero(a: u64)
    ensures Add64(a, 0) == a
  {
  }

  /** The second byte of the packed input is its length. */
  lemma SecondByte(input: seq<u8>)
    requires 1 <= |input| <= 3
    ensures Combined(input) / 0x100 % 0x100 == |input|
  {
    var c1: int, c2: int, c3: int := input[0], input[|input| / 2], input[|input| - 1];
    DivUnique(Combined(input), 0x100, c1 * 0x100 + c2 * 0x1_0000 + |input|, c3);
    DivUnique(c1 * 0x100 + c2 * 0x1_0000 + |input|, 0x100, c1 + c2 * 0x100, |input|);
  }

  lemma FlipIsLarge()
    ensures Xor32(At32(KSecret(), 0), At32(KSecret(), 4)) / 0x100 % 0x100 >= 8
  {
    SecretStart();
    hide *;
    FlipOf(KSecret());
  }

  lemma FlipOf(secret: seq<u8>)
    requires |secret| >= 8 && secret[1] == 0xFE && secret[5] == 0xA4
    ensures Xor32(At32(secret, 0), At32(secret, 4)) / 0x100 % 0x100 >= 8
  {
    hide *;
    SecondByteOf(secret, 0); SecondByteOf(secret, 4);
    SecondByteOfXor(At32(secret, 0), At32(secret, 4));
    XorIsLarge(WriteLE(At32(secret, 0), 4)[1], WriteLE(At32(secret, 4), 4)[1]);
  }

  lemma SecretStart()
    ensures |KSecret()| >= 8 && KSecret()[1] == 0xFE && KSecret()[5] == 0xA4
  {
    hide KSecret;
    SecretLength();
    SecretBytes(0, 1); SecretBytes(0, 5);
  }

  lemma SecondByteOf(b: seq<u8>, off: nat)
    requires off + 4 <= |b|
    ensures WriteLE(At32(b, off), 4)[1] == b[off + 1]
  {
    WriteAt32(b, off);
    hide At32, WriteLE;
    assert b[off..off + 4][1] == b[off + 1];
  }

  lemma SecondByteOfXor(a: u32, b: u32)
    ensures Xor32(a, b) / 0x100 % 0x100 == Xor(WriteLE(a, 4)[1], WriteLE(b, 4)[1])
  {
    hide Xor, WriteLE;
    BytesOfXor(a, b, 4, 1);
    SecondByteIs(Xor(a, b));
  }

  lemma SecondByteIs(x: nat)
    ensures WriteLE(x, 4)[1] == x / 0x100 % 0x100
  {
    ByteIs(x, 4, 1);
  }

  lemma XorIsLarge(a: u8, b: u8)
    requires a == 0xFE && b == 0xA4
    ensures Xor(a, b) >= 8
  {
    hide Xor;
    XorBits(0xFE, 0xA4); XorBits(0x7F, 0x52); XorBits(0x3F, 0x29); XorBits(0x1F, 0x14);
  }

  lemma FifthBits()
    ensures |KSecret()| == 192 && Odd(KSecret()[74]) && !Odd(KSecret()[66])
  {
    hide KSecret;
    SecretLength();
    SecretBytes(4, 10); SecretBytes(4, 2);
  }

  lemma ZeroBit()
    ensures !Bit(0, 2)
  {
    hide WriteLE64;
    BytesAre(0, [0, 0, 0, 0, 0, 0, 0, 0]);
  }

  lemma NotNull0()
    ensures Len0To16Hash128([], KSecret(), 0) != U128(0, 0)
  {
    var secret := KSecret();
    FifthBits();
    ZeroBit();
    var flip := Xor64(At64(secret, 64), At64(secret, 72));
    LowOf0();
    hide *;
    AvalancheOfNonZero(Xor64(0, flip));
    XorWithZero(flip);
    BitOfWord(secret, 64, 2); BitOfWord(secret, 72, 2);
    BitOfXor(At64(secret, 64), At64(secret, 72), 2);
  }

  lemma LowOf0()
    ensures Len0To16Hash128([], KSecret(), 0).low
         == Xxh64Avalanche(Xor64(0, Xor64(At64(KSecret(), 64), At64(KSecret(), 72))))
  {
    hide KSecret, Xor64, At64, Xxh64Avalanche;
  }

  // ---- the two keys, byte by byte ------------------------------------------------------

  lemma NullKeyWord()
    ensures At64(KSecret(), 16) == 0xDB979083E96DD4DE && At64(KSecret(), 24) == 0x1F67B3B7A4A44072
  {
    hide At64, ReadLE, KSecret;
    SecretWord(1, 0, 0xDB979083E96DD4DE); SecretWord(1, 8, 0x1F67B3B7A4A44072);
  }

  /** The 8-byte key. */
  lemma NullKeyIs()
    ensures NullKeyBytes() == [0xac, 0x94, 0xc9, 0x4d, 0x34, 0x23, 0xf0, 0xc4]
  {
    NullKeyWord();
    hide KSecret, At64, Xor, Xor64, WriteLE64, SpreadSeed, Add64;
    XorIs(0xDB979083E96DD4DE, 0x1F67B3B7A4A44072, 0xC4F023344DC994AC);
    NoSeed(0xC4F023344DC994AC);
    BytesAre(0xC4F023344DC994AC, [0xac, 0x94, 0xc9, 0x4d, 0x34, 0x23, 0xf0, 0xc4]);
  }

  lemma NullKey16Flips()
    ensures At64(KSecret(), 32) == 0x78E5C0CC4EE679CB && At64(KSecret(), 40) == 0x2172FFCC7DD05A82
    ensures At64(KSecret(), 48) == 0x8E2443F7744608B8 && At64(KSecret(), 56) == 0x4C263A81E69035E0
  {
    hide At64, ReadLE, KSecret;
    SecretWord(2, 0, 0x78E5C0CC4EE679CB); SecretWord(2, 8, 0x2172FFCC7DD05A82);
    SecretWord(3, 0, 0x8E2443F7744608B8); SecretWord(3, 8, 0x4C263A81E69035E0);
  }

  lemma NullKey16Xors()
    ensures Xor64(0x78E5C0CC4EE679CB, 0x2172FFCC7DD05A82) == 0x59973F0033362349
    ensures Xor64(0x8E2443F7744608B8, 0x4C263A81E69035E0) == 0xC202797692D63D58
    ensures Xor64(0x335BFF716993F680, 0xC202797692D63D58) == 0xF1598607FB45CBD8
    ensures Xor64(0xF1C0000000000000, 0x59973F0033362349) == 0xA8573F0033362349
    ensures Xor64(0xA8573F0033362349, 0xF1598607FB45CBD8) == 0x590EB907C873E891
  {
    hide Xor, Xor64;
    XorIs(0x78E5C0CC4EE679CB, 0x2172FFCC7DD05A82, 0x59973F0033362349);
    XorIs(0x8E2443F7744608B8, 0x4C263A81E69035E0, 0xC202797692D63D58);
    XorIs(0x335BFF716993F680, 0xC202797692D63D58, 0xF1598607FB45CBD8);
    XorIs(0xF1C0000000000000, 0x59973F0033362349, 0xA8573F0033362349);
    XorIs(0xA8573F0033362349, 0xF1598607FB45CBD8, 0x590EB907C873E891);
  }

  /** The 16-byte key. */
  lemma NullKey16Is()
    ensures NullKey16()
         == [0x91, 0xe8, 0x73, 0xc8, 0x07, 0xb9, 0x0e, 0x59,
             0xd8, 0xcb, 0x45, 0xfb, 0x07, 0x86, 0x59, 0xf1]
  {
    NullKey16Words();
    NullKey16Flips();
    NullKey16Xors();
    hide KSecret, At64, Xor64, WriteLE64, NullKey16;
    BytesAre(0x590EB907C873E891, [0x91, 0xe8, 0x73, 0xc8, 0x07, 0xb9, 0x0e, 0x59]);
    BytesAre(0xF1598607FB45CBD8, [0xd8, 0xcb, 0x45, 0xfb, 0x07, 0x86, 0x59, 0xf1]);
  }

  lemma NullKey16Words()
    ensures var hi := Xor64(0x335BFF716993F680, Xor64(At64(KSecret(), 48), At64(KSecret(), 56)));
            var lo := Xor64(Xor64(0xF1C0000000000000, Xor64(At64(KSecret(), 32), At64(KSecret(), 40))), hi);
            NullKey16() == WriteLE64(lo) + WriteLE64(hi)
  {
    var x, q, high, u := 0xF1C0000000000000, 0x8674DE1AEFC9E80, 0x9568E32B64376A80, 0x335BFF716993F680;
    assert LengthTerm(16) == 0xFC40000000000000 && NullSteps(0xFC40000000000000, x, q, high, u);
    NullWords(16, x, q, high, u);
    FlipsOf(KSecret());
    hide KSecret, WriteLE64, Words9To16, Xor64, At64, NullSteps, LengthTerm, BitflipLo9To16, BitflipHi9To16;
  }

  lemma FlipsOf(secret: seq<u8>)
    requires |secret| >= SECRET_SIZE_MIN
    ensures BitflipLo9To16(secret, 0) == Xor64(At64(secret, 32), At64(secret, 40))
    ensures BitflipHi9To16(secret, 0) == Xor64(At64(secret, 48), At64(secret, 56))
  {
    hide Xor64, At64;
  }

  // ---- all keys of up to 16 bytes -----------------------------------------------------

  /** Of the keys of up to 16 bytes exactly two have the all-zero hash, one of 8 bytes and one of 16. */
  lemma NullHashExactly(input: seq<u8>)
    requires |input| <= 16
    ensures Hash128(Plain, input) == U128(0, 0) <==> input == NullKeyBytes() || input == NullKey16()
  {
    hide Len1To3Hash128, Len4To8Hash128, Len9To16Hash128, KSecret, NullKeyBytes, NullKey16;
    if |input| == 0 { assert input == []; NotNull0(); }
    else if |input| <= 3 { NotNull1To3(input); }
    else if |input| <= 7 { NotNull4To7(input); }
    else if |input| == 8 { OneKeyHashesToNull(input); }
    else if |input| == 9 { NotNull9(input); }
    else if |input| == 10 { NotNull10(input); }
    else if |input| == 11 { NotNull11(input); }
    else if |input| == 12 { NotNull12(input); }
    else if |input| == 13 { NotNull13(input); }
    else if |input| == 14 { NotNull14(input); }
    else if |input| == 15 { NotNull15(input); }
    else {
      NullKey16IsNull();
      ShortInputsDoNotCollide(Plain, input, NullKey16());
    }
  }
}
