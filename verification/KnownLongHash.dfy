/** The XXH3 hashes of an input that is longer than a block: they settle the length of a block, its scramble, and
    how the data of the last stripe reaches the accumulators. */
module KnownLongHash {
  import opened Words
  import opened Literals
  import opened Mult128
  import opened Xxh3Kernel
  import opened Xxh3Short
  import opened Xxh3Secret
  import opened Xxh3Long
  import opened Xxh3OneShot
  import opened KnownHashes

  /** 1025 bytes: sixteen stripes of zeros, which are a block, and a one. */
  function Input(): (data: seq<u8>)
    ensures |data| == 1025
  {
    Zeros(1024) + [1]
  }

  function LastBytes(): (stripe: seq<u8>)
    ensures |stripe| == 64
  {
    Zeros(63) + [1]
  }

  lemma Stripes()
    ensures forall n :: 0 <= n < 16 ==> Stripe(Input(), n) == Zeros(64)
    ensures Input()[961..] == LastBytes()
  {
  }

  // ---- a block of zeros ---------------------------------------------------------------

  /** What a lane that takes its keys from the words of the secret at 0, 8 and so on gains in n stripes of zeros. */
  function Gained(n: nat): (sum: nat)
    requires n <= 23
  {
    if n == 0 then 0 else Gained(n - 1) + Gain(8 * n - 8)
  }

  lemma {:induction false} GainedMore(i: nat, n: nat)
    requires i <= n <= 23
    ensures Gained(i) <= Gained(n)
  {
    hide Gain;
    if i < n { GainedMore(i, n - 1); }
  }

  /** Lane i before its n-th stripe of zeros: it starts with word i of the secret. */
  function ZeroLane(i: nat, n: nat): u64
    requires i < 8 && n <= 16
  {
    Add64(InitAcc()[i], (Gained(i + n) - Gained(i)) % TWO64)
  }

  lemma GainsOne(init: u64, from: nat, to: nat, gain: u64)
    ensures Add64(Add64(init, (to - from) % TWO64), gain) == Add64(init, (to + gain - from) % TWO64)
  {
  }

  lemma FoldStep(data: seq<u8>, secret: seq<u8>, n: nat)
    requires |secret| == 192 && 0 < n < 16 && 64 * n <= |data|
    ensures Fold(data, secret, n)
         == Accumulate512(Fold(data, secret, n - 1), Stripe(data, n - 1), secret[8 * (n - 1)..])
  {
    hide InitAcc, Accumulate512, Stripe;
    assert Position(secret, n - 1) == n - 1;
  }

  lemma BlockEnds(data: seq<u8>, secret: seq<u8>)
    requires |secret| == 192 && 1024 <= |data|
    ensures Fold(data, secret, 16)
         == Scramble(Accumulate512(Fold(data, secret, 15), Stripe(data, 15), secret[120..]), secret[128..])
  {
    hide InitAcc, Accumulate512, Stripe, Scramble;
    assert Position(secret, 15) == 15 && StripesPerBlock(secret) == 16;
  }

  lemma {:induction false} FoldOfZeros(i: nat, n: nat)
    requires i < 8 && n < 16
    ensures 192 == |KSecret()| && Fold(Input(), KSecret(), n)[i] == ZeroLane(i, n)
  {
    hide KSecret, Zeros, Input, Gain, Accumulate512, InitAcc, Add64;
    SecretSize();
    if n > 0 {
      FoldOfZeros(i, n - 1);
      Stripes();
      FoldStep(Input(), KSecret(), n);
      ZeroStripe(Fold(Input(), KSecret(), n - 1), Zeros(64), KSecret(), 8 * (n - 1), i);
      assert Gained(i + n) == Gained(i + n - 1) + Gain(8 * (i + n) - 8);
      GainsOne(InitAcc()[i], Gained(i), Gained(i + n - 1), Gain(8 * (i + n) - 8));
    } else {
      NoSeed(InitAcc()[i]);
    }
  }

  lemma BlockOfZeros(i: nat)
    requires i < 8
    ensures |KSecret()| == 192
    ensures Fold(Input(), KSecret(), 16)[i] == ScrambleLane(ZeroLane(i, 16), At64(KSecret(), 128 + 8 * i))
  {
    hide KSecret, Zeros, Input, Gain, Accumulate512, InitAcc, Add64, ScrambleLane, ReadLE64;
    SecretSize();
    FoldOfZeros(i, 15);
    Stripes();
    BlockEnds(Input(), KSecret());
    ZeroStripe(Fold(Input(), KSecret(), 15), Zeros(64), KSecret(), 120, i);
    assert Gained(i + 16) == Gained(i + 15) + Gain(8 * (i + 16) - 8);
    GainsOne(InitAcc()[i], Gained(i), Gained(i + 15), Gain(8 * (i + 16) - 8));
    assert KSecret()[128..][8 * i..] == KSecret()[128 + 8 * i..];
  }

  // ---- the last stripe ----------------------------------------------------------------

  lemma LastWords()
    ensures forall i :: 0 <= i < 7 ==> Lane(LastBytes(), i) == 0
    ensures Lane(LastBytes(), 7) == 0x100_0000_0000_0000
  {
    hide ReadLE64;
    forall i | 0 <= i < 7 ensures Lane(LastBytes(), i) == 0 {
      ZeroWord(63, 8 * i);
      WordBefore(Zeros(63), [1], 8 * i);
    }
    assert LastBytes()[56..] == [0, 0, 0, 0, 0, 0, 0, 1];
    WordIs([0, 0, 0, 0, 0, 0, 0, 1], 0, 0x100_0000_0000_0000);
  }

  /** The product of lane 7, whose data is not zero. */
  const LAST_PRODUCT: u64 := 0x65BEBABA40F23972

  lemma LastLane(acc: seq<u64>, secret: seq<u8>, i: nat)
    requires |acc| == 8 && secret == KSecret() && |secret| == 192 && i < 8
    ensures Accumulate512(acc, LastBytes(), secret[121..])[i]
         == Add64(Add64(acc[i], if i == 6 then 0x100_0000_0000_0000 else 0),
                  if i == 7 then LAST_PRODUCT else Gain(121 + 8 * i))
  {
    hide KSecret, LastBytes, Mul32To64, ReadLE64, Xor64, Add64;
    LastWords();
    assert secret[121..][8 * i..] == secret[121 + 8 * i..];
    var key := At64(secret, 121 + 8 * i);
    if i == 7 { LastProduct(); } else { NoSeed(key); }
  }

  lemma XorOfLastWord()
    ensures Xor64(0x100000000000000, 0xAF280416958F3ACB) == 0xAE280416958F3ACB
  {
    hide Xor, Xor64;
    XorIs(0x100000000000000, 0xAF280416958F3ACB, 0xAE280416958F3ACB);
  }

  lemma LastProduct()
    ensures var dataKey := Xor64(0x100_0000_0000_0000, At64(KSecret(), 177));
            Mul32To64(Lo32(dataKey), Hi32(dataKey)) == LAST_PRODUCT
  {
    hide KSecret, At64, Xor64;
    Secret169();
    XorOfLastWord();
  }

  lemma LongAccIs(i: nat)
    requires i < 8
    ensures |KSecret()| == 192
    ensures LongAcc(Input(), KSecret())[i]
         == Add64(Add64(ScrambleLane(ZeroLane(i, 16), At64(KSecret(), 128 + 8 * i)),
                        if i == 6 then 0x100_0000_0000_0000 else 0),
                  if i == 7 then LAST_PRODUCT else Gain(121 + 8 * i))
  {
    hide KSecret, Input, LastBytes, Fold, Accumulate512, ScrambleLane, At64, Gain, ZeroLane, Add64;
    SecretSize();
    Stripes();
    BlockOfZeros(i);
    LastLane(Fold(Input(), KSecret(), 16), KSecret(), i);
  }

  // ---- in numbers ---------------------------------------------------------------------

  lemma Secret128()
    ensures At64(KSecret(), 128) == 0xC3EBD33483ACC5EA && At64(KSecret(), 136) == 0xEB6313FAFFA081C5
  {
    hide At64, ReadLE, KSecret;
    SecretWord(8, 0, 0xC3EBD33483ACC5EA); SecretWord(8, 8, 0xEB6313FAFFA081C5);
  }

  lemma Secret144()
    ensures At64(KSecret(), 144) == 0x49DAF0B751DD0D17 && At64(KSecret(), 152) == 0x9E68D429265516D3
  {
    hide At64, ReadLE, KSecret;
    SecretWord(9, 0, 0x49DAF0B751DD0D17); SecretWord(9, 8, 0x9E68D429265516D3);
  }

  lemma Secret160()
    ensures At64(KSecret(), 160) == 0xFCA1477D58BE162B && At64(KSecret(), 168) == 0xCE31D07AD1B8F88F
  {
    hide At64, ReadLE, KSecret;
    SecretWord(10, 0, 0xFCA1477D58BE162B); SecretWord(10, 8, 0xCE31D07AD1B8F88F);
  }

  lemma Secret176()
    ensures At64(KSecret(), 176) == 0x280416958F3ACB45 && At64(KSecret(), 184) == 0x7E404BBBCAFBD7AF
  {
    hide At64, ReadLE, KSecret;
    SecretWord(10, 16, 0x280416958F3ACB45); SecretWord(10, 24, 0x7E404BBBCAFBD7AF);
  }

  lemma GainsOfBlock1()
    ensures Gain(80) == 0x2EAB3C1288D24C82
    ensures Gain(88) == 0x3C09A39E5D5635F8
    ensures Gain(96) == 0xFAB52BF095EA2F8
    ensures Gain(104) == 0x16DDF431BB5E788F
    ensures Gain(112) == 0xEA0862E3EF05382
    ensures Gain(120) == 0x4F10596A0E133088
  {
    hide KSecret, At64;
    Secret80(); Secret96(); Secret112();
  }

  lemma GainsOfBlock2()
    ensures Gain(128) == 0x64C5E6FD12061188
    ensures Gain(136) == 0xEB0B4624928F5962
    ensures Gain(144) == 0x179E0BF275DFEB71
    ensures Gain(152) == 0x17B8366C1A3F63CB
    ensures Gain(160) == 0x579306265201BFFF
    ensures Gain(168) == 0xA8EBA734E179A426
    ensures Gain(176) == 0x166379505FC43D29
  {
    hide KSecret, At64;
    Secret128(); Secret144(); Secret160(); Secret176();
  }

  lemma Gained0To8()
    ensures Gained(0) == 0x0
    ensures Gained(1) == 0x2AAFDCCCDCFCB328
    ensures Gained(2) == 0x2FAC120BFF721DCC
    ensures Gained(3) == 0xF7E73AB3B354EB66
    ensures Gained(4) == 0x10C19D02BF9ACB2E4
    ensures Gained(5) == 0x1315CA8D9CF4500A8
    ensures Gained(6) == 0x141CD0903AB589E40
    ensures Gained(7) == 0x1825C5A9179132FC8
  {
    hide Gain;
    Gains1(); Gains2();
    assert Gained(1) == Gained(0) + Gain(0);
    assert Gained(2) == Gained(1) + Gain(8);
    assert Gained(3) == Gained(2) + Gain(16);
    assert Gained(4) == Gained(3) + Gain(24);
    assert Gained(5) == Gained(4) + Gain(32);
    assert Gained(6) == Gained(5) + Gain(40);
    assert Gained(7) == Gained(6) + Gain(48);
  }

  lemma Gained8To16()
    ensures Gained(8) == 0x1C6F198A8D33315A8
    ensures Gained(9) == 0x25B7C4DAA156193A4
    ensures Gained(10) == 0x2B4575AFCDC2AA9FC
    ensures Gained(11) == 0x2E302970F64FCF67E
    ensures Gained(12) == 0x31F0C3AADC2532C76
    ensures Gained(13) == 0x32EB78D6CCBB1CF6E
    ensures Gained(14) == 0x34595819E871047FD
    ensures Gained(15) == 0x3543607CCC6009B7F
  {
    hide Gain;
    Gains1(); Gains2(); GainsOfBlock1(); Gained0To8();
    assert Gained(8) == Gained(7) + Gain(56);
    assert Gained(9) == Gained(8) + Gain(64);
    assert Gained(10) == Gained(9) + Gain(72);
    assert Gained(11) == Gained(10) + Gain(80);
    assert Gained(12) == Gained(11) + Gain(88);
    assert Gained(13) == Gained(12) + Gain(96);
    assert Gained(14) == Gained(13) + Gain(104);
    assert Gained(15) == Gained(14) + Gain(112);
  }

  lemma Gained16To23()
    ensures Gained(16) == 0x3A3466136D413CC07
    ensures Gained(17) == 0x4080C4833E619DD8F
    ensures Gained(18) == 0x4F3178E5878A936F1
    ensures Gained(19) == 0x50AB59A4AEE892262
    ensures Gained(20) == 0x5226DD0B708C8862D
    ensures Gained(21) == 0x57A00D6DD5ACA462C
    ensures Gained(22) == 0x622EC7E123C43EA52
    ensures Gained(23) == 0x6394FF7629C08277B
  {
    hide Gain;
    GainsOfBlock1(); GainsOfBlock2(); Gained8To16();
    assert Gained(16) == Gained(15) + Gain(120);
    assert Gained(17) == Gained(16) + Gain(128);
    assert Gained(18) == Gained(17) + Gain(136);
    assert Gained(19) == Gained(18) + Gain(144);
    assert Gained(20) == Gained(19) + Gain(152);
    assert Gained(21) == Gained(20) + Gain(160);
    assert Gained(22) == Gained(21) + Gain(168);
    assert Gained(23) == Gained(22) + Gain(176);
  }

  lemma ZeroLanes()
    ensures ZeroLane(0, 16) == 0xA346613796C67A44
    ensures ZeroLane(1, 16) == 0x7B93E5188F08F4EE
    ensures ZeroLane(2, 16) == 0x861E2A89A10C0474
    ensures ZeroLane(3, 16) == 0x2924C748D96BB0F5
    ensures ZeroLane(4, 16) == 0x9C3FCB02D1CE81AC
    ensures ZeroLane(5, 16) == 0x48A42E0411710FFB
    ensures ZeroLane(6, 16) == 0x8F4603DA741B3D7
    ensures ZeroLane(7, 16) == 0xB6F39CD1C12C7164
  {
    hide Gained;
    Gained0To8(); Gained8To16(); Gained16To23();
  }

  lemma ScrambleLaneIs(a: u64, key: u64, q: u64, x: u64, y: u64, r: u64)
    requires a / 0x8000_0000_0000 == q && Xor64(a, q) == x && Xor64(x, key) == y && Mul64(y, PRIME32_1) == r
    ensures ScrambleLane(a, key) == r
  {
    Powers();
    hide Pow2, Xor, Mul64;
    Pow2Add(24, 23); SmallPowers();
    ShrIsQuotient(a, 47);
  }

  lemma XorsOfScramble1()
    ensures Xor64(0xA346613796C67A44, 0x1468C) == 0xA346613796C73CC8
    ensures Xor64(0xA346613796C73CC8, 0xC3EBD33483ACC5EA) == 0x60ADB203156BF922
    ensures Xor64(0x7B93E5188F08F4EE, 0xF727) == 0x7B93E5188F0803C9
    ensures Xor64(0x7B93E5188F0803C9, 0xEB6313FAFFA081C5) == 0x90F0F6E270A8820C
    ensures Xor64(0x861E2A89A10C0474, 0x10C3C) == 0x861E2A89A10D0848
    ensures Xor64(0x861E2A89A10D0848, 0x49DAF0B751DD0D17) == 0xCFC4DA3EF0D0055F
  {
    hide Xor, Xor64;
    XorIs(0xA346613796C67A44, 0x1468C, 0xA346613796C73CC8);
    XorIs(0xA346613796C73CC8, 0xC3EBD33483ACC5EA, 0x60ADB203156BF922);
    XorIs(0x7B93E5188F08F4EE, 0xF727, 0x7B93E5188F0803C9);
    XorIs(0x7B93E5188F0803C9, 0xEB6313FAFFA081C5, 0x90F0F6E270A8820C);
    XorIs(0x861E2A89A10C0474, 0x10C3C, 0x861E2A89A10D0848);
    XorIs(0x861E2A89A10D0848, 0x49DAF0B751DD0D17, 0xCFC4DA3EF0D0055F);
  }

  lemma XorsOfScramble2()
    ensures Xor64(0x2924C748D96BB0F5, 0x5249) == 0x2924C748D96BE2BC
    ensures Xor64(0x2924C748D96BE2BC, 0x9E68D429265516D3) == 0xB74C1361FF3EF46F
    ensures Xor64(0x9C3FCB02D1CE81AC, 0x1387F) == 0x9C3FCB02D1CFB9D3
    ensures Xor64(0x9C3FCB02D1CFB9D3, 0xFCA1477D58BE162B) == 0x609E8C7F8971AFF8
    ensures Xor64(0x48A42E0411710FFB, 0x9148) == 0x48A42E0411719EB3
    ensures Xor64(0x48A42E0411719EB3, 0xCE31D07AD1B8F88F) == 0x8695FE7EC0C9663C
  {
    hide Xor, Xor64;
    XorIs(0x2924C748D96BB0F5, 0x5249, 0x2924C748D96BE2BC);
    XorIs(0x2924C748D96BE2BC, 0x9E68D429265516D3, 0xB74C1361FF3EF46F);
    XorIs(0x9C3FCB02D1CE81AC, 0x1387F, 0x9C3FCB02D1CFB9D3);
    XorIs(0x9C3FCB02D1CFB9D3, 0xFCA1477D58BE162B, 0x609E8C7F8971AFF8);
    XorIs(0x48A42E0411710FFB, 0x9148, 0x48A42E0411719EB3);
    XorIs(0x48A42E0411719EB3, 0xCE31D07AD1B8F88F, 0x8695FE7EC0C9663C);
  }

  lemma XorsOfScramble3()
    ensures Xor64(0x8F4603DA741B3D7, 0x11E8) == 0x8F4603DA741A23F
    ensures Xor64(0x8F4603DA741A23F, 0x280416958F3ACB45) == 0x20F076A8287B697A
    ensures Xor64(0xB6F39CD1C12C7164, 0x16DE7) == 0xB6F39CD1C12D1C83
    ensures Xor64(0xB6F39CD1C12D1C83, 0x7E404BBBCAFBD7AF) == 0xC8B3D76A0BD6CB2C
  {
    hide Xor, Xor64;
    XorIs(0x8F4603DA741B3D7, 0x11E8, 0x8F4603DA741A23F);
    XorIs(0x8F4603DA741A23F, 0x280416958F3ACB45, 0x20F076A8287B697A);
    XorIs(0xB6F39CD1C12C7164, 0x16DE7, 0xB6F39CD1C12D1C83);
    XorIs(0xB6F39CD1C12D1C83, 0x7E404BBBCAFBD7AF, 0xC8B3D76A0BD6CB2C);
  }

  lemma ScrambledLanes1()
    ensures ScrambleLane(0xA346613796C67A44, 0xC3EBD33483ACC5EA) == 0x171DC7375AB65282
    ensures ScrambleLane(0x7B93E5188F08F4EE, 0xEB6313FAFFA081C5) == 0xE779EE46E28D964C
    ensures ScrambleLane(0x861E2A89A10C0474, 0x49DAF0B751DD0D17) == 0x6E68C5589BC69DAF
    ensures ScrambleLane(0x2924C748D96BB0F5, 0x9E68D429265516D3) == 0x565969C941E877BF
  {
    hide Xor64, ScrambleLane;
    XorsOfScramble1(); XorsOfScramble2(); XorsOfScramble3();
    ScrambleLaneIs(0xA346613796C67A44, 0xC3EBD33483ACC5EA, 0x1468C, 0xA346613796C73CC8, 0x60ADB203156BF922,
                   0x171DC7375AB65282);
    ScrambleLaneIs(0x7B93E5188F08F4EE, 0xEB6313FAFFA081C5, 0xF727, 0x7B93E5188F0803C9, 0x90F0F6E270A8820C,
                   0xE779EE46E28D964C);
    ScrambleLaneIs(0x861E2A89A10C0474, 0x49DAF0B751DD0D17, 0x10C3C, 0x861E2A89A10D0848, 0xCFC4DA3EF0D0055F,
                   0x6E68C5589BC69DAF);
    ScrambleLaneIs(0x2924C748D96BB0F5, 0x9E68D429265516D3, 0x5249, 0x2924C748D96BE2BC, 0xB74C1361FF3EF46F,
                   0x565969C941E877BF);
  }

  lemma ScrambledLanes2()
    ensures ScrambleLane(0x9C3FCB02D1CE81AC, 0xFCA1477D58BE162B) == 0xA4421E2CA20EE278
    ensures ScrambleLane(0x48A42E0411710FFB, 0xCE31D07AD1B8F88F) == 0xDB3697207B760B7C
    ensures ScrambleLane(0x8F4603DA741B3D7, 0x280416958F3ACB45) == 0xB57463034764975A
    ensures ScrambleLane(0xB6F39CD1C12C7164, 0x7E404BBBCAFBD7AF) == 0x80402C7583FE456C
  {
    hide Xor64, ScrambleLane;
    XorsOfScramble1(); XorsOfScramble2(); XorsOfScramble3();
    ScrambleLaneIs(0x9C3FCB02D1CE81AC, 0xFCA1477D58BE162B, 0x1387F, 0x9C3FCB02D1CFB9D3, 0x609E8C7F8971AFF8,
                   0xA4421E2CA20EE278);
    ScrambleLaneIs(0x48A42E0411710FFB, 0xCE31D07AD1B8F88F, 0x9148, 0x48A42E0411719EB3, 0x8695FE7EC0C9663C,
                   0xDB3697207B760B7C);
    ScrambleLaneIs(0x8F4603DA741B3D7, 0x280416958F3ACB45, 0x11E8, 0x8F4603DA741A23F, 0x20F076A8287B697A,
                   0xB57463034764975A);
    ScrambleLaneIs(0xB6F39CD1C12C7164, 0x7E404BBBCAFBD7AF, 0x16DE7, 0xB6F39CD1C12D1C83, 0xC8B3D76A0BD6CB2C,
                   0x80402C7583FE456C);
  }

  predicate LanesAre(acc: seq<u64>)
  {
    && |acc| == 8 && acc[0] == 0xDE8569E5C1271A0A && acc[1] == 0x100B72E73DBCD3AB
    && acc[2] == 0x85DC8690053C6A42 && acc[3] == 0xEDA6C61A9499C5EF && acc[4] == 0xAB4504F97DF248B0
    && acc[5] == 0x21B6DBA176469996 && acc[6] == 0xD7F1D686E5C258DA && acc[7] == 0xE5FEE72FC4F07EDE
  }

  lemma LanesOfInput1()
    ensures |KSecret()| == 192
    ensures var acc := LongAcc(Input(), KSecret());
            acc[0] == 0xDE8569E5C1271A0A && acc[1] == 0x100B72E73DBCD3AB
            && acc[2] == 0x85DC8690053C6A42 && acc[3] == 0xEDA6C61A9499C5EF
  {
    hide KSecret, Input, LongAcc, At64, Gain, ZeroLane, ScrambleLane;
    SecretSize();
    Gains2(); Gains3();
    Secret128(); Secret144();
    ZeroLanes(); ScrambledLanes1();
    LongAccIs(0); LongAccIs(1); LongAccIs(2); LongAccIs(3);
  }

  lemma LanesOfInput2()
    ensures |KSecret()| == 192
    ensures var acc := LongAcc(Input(), KSecret());
            acc[4] == 0xAB4504F97DF248B0 && acc[5] == 0x21B6DBA176469996
            && acc[6] == 0xD7F1D686E5C258DA && acc[7] == 0xE5FEE72FC4F07EDE
  {
    hide KSecret, Input, LongAcc, At64, Gain, ZeroLane, ScrambleLane;
    SecretSize();
    Gains2(); Gains3();
    Secret160(); Secret176();
    ZeroLanes(); ScrambledLanes2();
    LongAccIs(4); LongAccIs(5); LongAccIs(6); LongAccIs(7);
  }

  lemma XorsOfLowPairs1()
    ensures Xor64(0xDE8569E5C1271A0A, 0x6DD4DE1CAD21F72C) == 0xB351B7F96C06ED26
    ensures Xor64(0x100B72E73DBCD3AB, 0xA44072DB979083E9) == 0xB44B003CAA2C5042
    ensures Xor64(0x88EC1FA4026D03CC, 0x7E49FE76C461F1AA) == 0xF6A5E1D2C60CF266
    ensures Xor64(0x85DC8690053C6A42, 0xE679CB1F67B3B7A4) == 0x63A54D8F628FDDE6
    ensures Xor64(0xEDA6C61A9499C5EF, 0xD05A8278E5C0CC4E) == 0x3DFC4462715909A1
    ensures Xor64(0xEA76A0A6B63DA3A6, 0x182094D1BDA1B403) == 0xF25634770B9C17A5
  {
    hide Xor, Xor64;
    XorIs(0xDE8569E5C1271A0A, 0x6DD4DE1CAD21F72C, 0xB351B7F96C06ED26);
    XorIs(0x100B72E73DBCD3AB, 0xA44072DB979083E9, 0xB44B003CAA2C5042);
    XorIs(0x88EC1FA4026D03CC, 0x7E49FE76C461F1AA, 0xF6A5E1D2C60CF266);
    XorIs(0x85DC8690053C6A42, 0xE679CB1F67B3B7A4, 0x63A54D8F628FDDE6);
    XorIs(0xEDA6C61A9499C5EF, 0xD05A8278E5C0CC4E, 0x3DFC4462715909A1);
    XorIs(0xEA76A0A6B63DA3A6, 0x182094D1BDA1B403, 0xF25634770B9C17A5);
  }

  lemma XorsOfLowPairs2()
    ensures Xor64(0xAB4504F97DF248B0, 0x4608B82172FFCC7D) == 0xED4DBCD80F0D84CD
    ensures Xor64(0x21B6DBA176469996, 0x9035E08E2443F774) == 0xB1833B2F52056EE2
    ensures Xor64(0x5DCDCDA55B0052FA, 0xA48C6535CCCB73AA) == 0xF941A89097CB2150
    ensures Xor64(0xD7F1D686E5C258DA, 0x52283C4C263A81E6) == 0x85D9EACAC3F8D93C
    ensures Xor64(0xE5FEE72FC4F07EDE, 0x65D088CB00C391BB) == 0x802E6FE4C433EF65
    ensures Xor64(0xBE36FD49DAF0B8AC, 0x43053D0EABE4AA3C) == 0xFD33C04771141290
  {
    hide Xor, Xor64;
    XorIs(0xAB4504F97DF248B0, 0x4608B82172FFCC7D, 0xED4DBCD80F0D84CD);
    XorIs(0x21B6DBA176469996, 0x9035E08E2443F774, 0xB1833B2F52056EE2);
    XorIs(0x5DCDCDA55B0052FA, 0xA48C6535CCCB73AA, 0xF941A89097CB2150);
    XorIs(0xD7F1D686E5C258DA, 0x52283C4C263A81E6, 0x85D9EACAC3F8D93C);
    XorIs(0xE5FEE72FC4F07EDE, 0x65D088CB00C391BB, 0x802E6FE4C433EF65);
    XorIs(0xBE36FD49DAF0B8AC, 0x43053D0EABE4AA3C, 0xFD33C04771141290);
  }

  lemma LowFolds()
    ensures Mul128Fold64(0xB351B7F96C06ED26, 0xB44B003CAA2C5042) == 0xF6A5E1D2C60CF266
    ensures Mul128Fold64(0x63A54D8F628FDDE6, 0x3DFC4462715909A1) == 0xF25634770B9C17A5
    ensures Mul128Fold64(0xED4DBCD80F0D84CD, 0xB1833B2F52056EE2) == 0xF941A89097CB2150
    ensures Mul128Fold64(0x85D9EACAC3F8D93C, 0x802E6FE4C433EF65) == 0xFD33C04771141290
  {
    hide Xor64, Mul128Fold64;
    XorsOfLowPairs1(); XorsOfLowPairs2();
    FoldIs(0xB351B7F96C06ED26, 0xB44B003CAA2C5042, 0x88EC1FA4026D03CC, 0x7E49FE76C461F1AA, 0xF6A5E1D2C60CF266);
    FoldIs(0x63A54D8F628FDDE6, 0x3DFC4462715909A1, 0xEA76A0A6B63DA3A6, 0x182094D1BDA1B403, 0xF25634770B9C17A5);
    FoldIs(0xED4DBCD80F0D84CD, 0xB1833B2F52056EE2, 0x5DCDCDA55B0052FA, 0xA48C6535CCCB73AA, 0xF941A89097CB2150);
    FoldIs(0x85D9EACAC3F8D93C, 0x802E6FE4C433EF65, 0xBE36FD49DAF0B8AC, 0x43053D0EABE4AA3C, 0xFD33C04771141290);
  }

  lemma LowPairs(acc: seq<u64>)
    requires LanesAre(acc)
    ensures |KSecret()| == 192
    ensures Mix2Accs(acc, 0, KSecret(), 11) == 0xF6A5E1D2C60CF266
    ensures Mix2Accs(acc, 2, KSecret(), 27) == 0xF25634770B9C17A5
    ensures Mix2Accs(acc, 4, KSecret(), 43) == 0xF941A89097CB2150
    ensures Mix2Accs(acc, 6, KSecret(), 59) == 0xFD33C04771141290
  {
    hide KSecret, At64, Xor64, Mul128Fold64, Mix2Accs;
    SecretSize();
    Secret11(); Secret27(); Secret43(); Secret59();
    XorsOfLowPairs1(); XorsOfLowPairs2();
    LowFolds();
    PairIs(acc, 0, 11, 0xB351B7F96C06ED26, 0xB44B003CAA2C5042, 0xF6A5E1D2C60CF266);
    PairIs(acc, 2, 27, 0x63A54D8F628FDDE6, 0x3DFC4462715909A1, 0xF25634770B9C17A5);
    PairIs(acc, 4, 43, 0xED4DBCD80F0D84CD, 0xB1833B2F52056EE2, 0xF941A89097CB2150);
    PairIs(acc, 6, 59, 0x85D9EACAC3F8D93C, 0x802E6FE4C433EF65, 0xFD33C04771141290);
  }

  lemma XorsOfLowMerge()
    ensures Xor64(0x5B8FBEEB0F9E2472, 0x2DC7DF7) == 0x5B8FBEEB0D425985
    ensures Xor64(0xCC03CFBA936BEF5D, 0xCC03CFBA) == 0xCC03CFBA5F6820E7
  {
    hide Xor, Xor64;
    XorIs(0x5B8FBEEB0F9E2472, 0x2DC7DF7, 0x5B8FBEEB0D425985);
    XorIs(0xCC03CFBA936BEF5D, 0xCC03CFBA, 0xCC03CFBA5F6820E7);
  }

  lemma XorsOfHighPairs1()
    ensures Xor64(0xDE8569E5C1271A0A, 0xD9C97E9FC83159B4) == 0x74C177A091643BE
    ensures Xor64(0x100B72E73DBCD3AB, 0x3483ACC5EA647378) == 0x2488DE22D7D8A0D3
    ensures Xor64(0x17A0C02D2200959A, 0x10A9A0E9CB9FBF2) == 0x16AA5A23BEB96E68
    ensures Xor64(0x85DC8690053C6A42, 0xFAFFA081C5C3EBD3) == 0x7F232611C0FF8191
    ensures Xor64(0xEDA6C61A9499C5EF, 0xB751DD0D17EB6313) == 0x5AF71B178372A6FC
    ensures Xor64(0x41799CBB8F1990BC, 0x2D2D13C05B6F4216) == 0x6C548F7BD476D2AA
  {
    hide Xor, Xor64;
    XorIs(0xDE8569E5C1271A0A, 0xD9C97E9FC83159B4, 0x74C177A091643BE);
    XorIs(0x100B72E73DBCD3AB, 0x3483ACC5EA647378, 0x2488DE22D7D8A0D3);
    XorIs(0x17A0C02D2200959A, 0x10A9A0E9CB9FBF2, 0x16AA5A23BEB96E68);
    XorIs(0x85DC8690053C6A42, 0xFAFFA081C5C3EBD3, 0x7F232611C0FF8191);
    XorIs(0xEDA6C61A9499C5EF, 0xB751DD0D17EB6313, 0x5AF71B178372A6FC);
    XorIs(0x41799CBB8F1990BC, 0x2D2D13C05B6F4216, 0x6C548F7BD476D2AA);
  }

  lemma XorsOfHighPairs2()
    ensures Xor64(0xAB4504F97DF248B0, 0x29265516D349DAF0) == 0x826351EFAEBB9240
    ensures Xor64(0x21B6DBA176469996, 0x7D58BE162B9E68D4) == 0x5CEE65B75DD8F142
    ensures Xor64(0x32BC216E4709F480, 0x2F551D96E3BF90A9) == 0x1DE93CF8A4B66429
    ensures Xor64(0xD7F1D686E5C258DA, 0x7AD1B8F88FFCA147) == 0xAD206E7E6A3EF99D
    ensures Xor64(0xE5FEE72FC4F07EDE, 0x958F3ACB45CE31D0) == 0x7071DDE4813E4F0E
    ensures Xor64(0xCBE65D8FCF7F1996, 0x4C0B31B79BF5784E) == 0x87ED6C38548A61D8
  {
    hide Xor, Xor64;
    XorIs(0xAB4504F97DF248B0, 0x29265516D349DAF0, 0x826351EFAEBB9240);
    XorIs(0x21B6DBA176469996, 0x7D58BE162B9E68D4, 0x5CEE65B75DD8F142);
    XorIs(0x32BC216E4709F480, 0x2F551D96E3BF90A9, 0x1DE93CF8A4B66429);
    XorIs(0xD7F1D686E5C258DA, 0x7AD1B8F88FFCA147, 0xAD206E7E6A3EF99D);
    XorIs(0xE5FEE72FC4F07EDE, 0x958F3ACB45CE31D0, 0x7071DDE4813E4F0E);
    XorIs(0xCBE65D8FCF7F1996, 0x4C0B31B79BF5784E, 0x87ED6C38548A61D8);
  }

  lemma HighFolds()
    ensures Mul128Fold64(0x74C177A091643BE, 0x2488DE22D7D8A0D3) == 0x16AA5A23BEB96E68
    ensures Mul128Fold64(0x7F232611C0FF8191, 0x5AF71B178372A6FC) == 0x6C548F7BD476D2AA
    ensures Mul128Fold64(0x826351EFAEBB9240, 0x5CEE65B75DD8F142) == 0x1DE93CF8A4B66429
    ensures Mul128Fold64(0xAD206E7E6A3EF99D, 0x7071DDE4813E4F0E) == 0x87ED6C38548A61D8
  {
    hide Xor64, Mul128Fold64;
    XorsOfHighPairs1(); XorsOfHighPairs2();
    FoldIs(0x74C177A091643BE, 0x2488DE22D7D8A0D3, 0x17A0C02D2200959A, 0x10A9A0E9CB9FBF2, 0x16AA5A23BEB96E68);
    FoldIs(0x7F232611C0FF8191, 0x5AF71B178372A6FC, 0x41799CBB8F1990BC, 0x2D2D13C05B6F4216, 0x6C548F7BD476D2AA);
    FoldIs(0x826351EFAEBB9240, 0x5CEE65B75DD8F142, 0x32BC216E4709F480, 0x2F551D96E3BF90A9, 0x1DE93CF8A4B66429);
    FoldIs(0xAD206E7E6A3EF99D, 0x7071DDE4813E4F0E, 0xCBE65D8FCF7F1996, 0x4C0B31B79BF5784E, 0x87ED6C38548A61D8);
  }

  lemma HighPairs(acc: seq<u64>)
    requires LanesAre(acc)
    ensures |KSecret()| == 192
    ensures Mix2Accs(acc, 0, KSecret(), 117) == 0x16AA5A23BEB96E68
    ensures Mix2Accs(acc, 2, KSecret(), 133) == 0x6C548F7BD476D2AA
    ensures Mix2Accs(acc, 4, KSecret(), 149) == 0x1DE93CF8A4B66429
    ensures Mix2Accs(acc, 6, KSecret(), 165) == 0x87ED6C38548A61D8
  {
    hide KSecret, At64, Xor64, Mul128Fold64, Mix2Accs;
    SecretSize();
    Secret117(); Secret133(); Secret149(); Secret165();
    XorsOfHighPairs1(); XorsOfHighPairs2();
    HighFolds();
    PairIs(acc, 0, 117, 0x74C177A091643BE, 0x2488DE22D7D8A0D3, 0x16AA5A23BEB96E68);
    PairIs(acc, 2, 133, 0x7F232611C0FF8191, 0x5AF71B178372A6FC, 0x6C548F7BD476D2AA);
    PairIs(acc, 4, 149, 0x826351EFAEBB9240, 0x5CEE65B75DD8F142, 0x1DE93CF8A4B66429);
    PairIs(acc, 6, 165, 0xAD206E7E6A3EF99D, 0x7071DDE4813E4F0E, 0x87ED6C38548A61D8);
  }

  lemma XorsOfHighMerge()
    ensures Xor64(0x9B69EFF410EEDFC3, 0x4DB4F7F) == 0x9B69EFF4143590BC
    ensures Xor64(0x3518C74719E6A2DC, 0x3518C747) == 0x3518C7472CFE659B
  {
    hide Xor, Xor64;
    XorIs(0x9B69EFF410EEDFC3, 0x4DB4F7F, 0x9B69EFF4143590BC);
    XorIs(0x3518C74719E6A2DC, 0x3518C747, 0x3518C7472CFE659B);
  }

  lemma Starts1025()
    ensures Mul64(Len64(1025), PRIME64_1) == 0x7C1E3FC93515E687
    ensures Complement64(Mul64(Len64(1025), PRIME64_2)) == 0x72945D23847DD8B0
  {
  }

  lemma LowMergeOfInput()
    ensures |KSecret()| == 192
    ensures MergeAccs(LongAcc(Input(), KSecret()), KSecret(), 11, 0x7C1E3FC93515E687) == 0xCC03CFBA5F6820E7
  {
    hide KSecret, Input, LongAcc, MergeAccs, Mix2Accs, Xor64, Avalanche;
    SecretSize(); LanesOfInput1(); LanesOfInput2();
    LowPairs(LongAcc(Input(), KSecret()));
    XorsOfLowMerge();
    AvalancheIs(0x5B8FBEEB0F9E2472, 0x2DC7DF7, 0x5B8FBEEB0D425985, 0xCC03CFBA936BEF5D, 0xCC03CFBA,
                0xCC03CFBA5F6820E7);
    MergeIs(LongAcc(Input(), KSecret()), KSecret(), 11, 0x7C1E3FC93515E687, 0xF6A5E1D2C60CF266, 0xF25634770B9C17A5,
            0xF941A89097CB2150, 0xFD33C04771141290, 0x72C4219BFB22D8ED, 0x651A561306BEF092, 0x5E5BFEA39E8A11E2,
            0x5B8FBEEB0F9E2472, 0xCC03CFBA5F6820E7);
  }

  lemma HighMergeOfInput()
    ensures |KSecret()| == 192
    ensures MergeAccs(LongAcc(Input(), KSecret()), KSecret(), 117, 0x72945D23847DD8B0) == 0x3518C7472CFE659B
  {
    hide KSecret, Input, LongAcc, MergeAccs, Mix2Accs, Xor64, Avalanche;
    SecretSize(); LanesOfInput1(); LanesOfInput2();
    HighPairs(LongAcc(Input(), KSecret()));
    XorsOfHighMerge();
    AvalancheIs(0x9B69EFF410EEDFC3, 0x4DB4F7F, 0x9B69EFF4143590BC, 0x3518C74719E6A2DC, 0x3518C747,
                0x3518C7472CFE659B);
    MergeIs(LongAcc(Input(), KSecret()), KSecret(), 117, 0x72945D23847DD8B0, 0x16AA5A23BEB96E68, 0x6C548F7BD476D2AA,
            0x1DE93CF8A4B66429, 0x87ED6C38548A61D8, 0x893EB74743374718, 0xF59346C317AE19C2, 0x137C83BBBC647DEB,
            0x9B69EFF410EEDFC3, 0x3518C7472CFE659B);
  }

  /** The XXH3 hashes of 1024 zero bytes and a one. */
  lemma HashesOf1025Bytes()
    ensures Hash64(Plain, Zeros(1024) + [1]) == 0xCC03CFBA5F6820E7
    ensures Hash128(Plain, Zeros(1024) + [1]) == U128(0xCC03CFBA5F6820E7, 0x3518C7472CFE659B)
  {
    hide KSecret, Zeros, LongAcc, MergeAccs;
    Starts1025();
    LowMergeOfInput(); HighMergeOfInput();
  }
}
