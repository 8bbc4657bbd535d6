/** The secret derived from a seed: a fixed transformation of the default secret. */
module Xxh3Secret {
  import opened Words
  import opened Xxh3Kernel
  import opened Xxh3Short

  /** The first 16 * n bytes of the secret for a seed: of each pair of words the first is
      increased and the second decreased by the seed. */
  function DerivedPrefix(base: seq<u8>, seed: u64, n: nat): (secret: seq<u8>)
    requires 16 * n <= |base|
    ensures |secret| == 16 * n
  {
    if n == 0 then [] else
      DerivedPrefix(base, seed, n - 1)
      + WriteLE64(Add64(At64(base, 16 * (n - 1)), seed))
      + WriteLE64(Sub64(At64(base, 16 * (n - 1) + 8), seed))
  }

  function DerivedSecret(seed: u64): (secret: seq<u8>)
    ensures |secret| == 192
  {
    DerivedPrefix(KSecret(), seed, 12)
  }

  /** XXH_writeLE64, or any other store of consecutive bytes. */
  method Store(dst: array<u8>, off: nat, bytes: seq<u8>)
    requires off + |bytes| <= dst.Length
    modifies dst
    ensures dst[..] == old(dst[..off]) + bytes + old(dst[off + |bytes|..])
  {
    forall k | 0 <= k < |bytes| { dst[off + k] := bytes[k]; }
  }

  /** XXH3_initCustomSecret_scalar */
  method InitCustomSecretScalar(customSecret: array<u8>, seed64: u64)
    requires customSecret.Length == 192
    modifies customSecret
    ensures customSecret[..] == DerivedSecret(seed64)
  {
    hide KSecret, WriteLE64, Add64, Sub64, At64;
    var i := 0;
    while i < 12
      invariant 0 <= i <= 12
      invariant customSecret[..16 * i] == DerivedPrefix(KSecret(), seed64, i)
    {
      var lo := Add64(At64(KSecret(), 16 * i), seed64);
      var hi := Sub64(At64(KSecret(), 16 * i + 8), seed64);
      Store(customSecret, 16 * i, WriteLE64(lo));
      Store(customSecret, 16 * i + 8, WriteLE64(hi));
      i := i + 1;
    }
  }

  lemma AddOfNegated(k: u64, seed: u64)
    ensures Add64(k, Sub64(0, seed)) == Sub64(k, seed)
  {
  }

  /** XXH3_initCustomSecret_sse2: one register {seed, -seed} is added to each pair of words. */
  method InitCustomSecretSse2(customSecret: array<u8>, seed64: u64)
    requires customSecret.Length == 192
    modifies customSecret
    ensures customSecret[..] == DerivedSecret(seed64)
  {
    hide KSecret, WriteLE64, Add64, Sub64, Lane;
    var seedVec := Vec(seed64, Sub64(0, seed64));
    var i := 0;
    while i < 12
      invariant 0 <= i <= 12
      invariant customSecret[..16 * i] == DerivedPrefix(KSecret(), seed64, i)
    {
      var r := AddEpi64(LoadVec(KSecret(), i), seedVec);
      AddOfNegated(Lane(KSecret(), 2 * i + 1), seed64);
      LaneIsAt64(KSecret(), 2 * i); LaneIsAt64(KSecret(), 2 * i + 1);
      Store(customSecret, 16 * i, WriteLE64(r.lane0) + WriteLE64(r.lane1));
      i := i + 1;
    }
  }

  lemma LaneIsAt64(b: seq<u8>, i: nat)
    requires 8 * i + 8 <= |b|
    ensures Lane(b, i) == At64(b, 8 * i)
  {
  }

  /** Seed zero derives the default secret, so the branches that skip the derivation for seed
      zero are shortcuts and nothing else. */
  lemma SeedZeroDerivesDefault()
    ensures DerivedSecret(0) == KSecret()
  {
    hide KSecret, DerivedPrefix;
    SeedZeroChangesNothing(KSecret(), 12);
    assert KSecret()[..192] == KSecret();
  }

  /** Each pair of words of the derived secret holds the seed twice: as what the first word gained and as what
      the second lost. */
  lemma SeedFromSecret(seed: u64, i: nat)
    requires i < 12
    ensures |KSecret()| == 192
    ensures var secret := DerivedSecret(seed);
            Sub64(At64(secret, 16 * i), At64(KSecret(), 16 * i)) == seed
         == Sub64(At64(KSecret(), 16 * i + 8), At64(secret, 16 * i + 8))
  {
    assert |KSecret()| == 192;
    hide KSecret, DerivedPrefix, At64, Add64, Sub64;
    PairOfPrefix(KSecret(), seed, 12, i);
    GainedAndLost(At64(KSecret(), 16 * i), seed); GainedAndLost(At64(KSecret(), 16 * i + 8), seed);
  }

  lemma GainedAndLost(k: u64, seed: u64)
    ensures Sub64(Add64(k, seed), k) == seed == Sub64(k, Sub64(k, seed))
  {
  }

  lemma {:induction false} PairOfPrefix(base: seq<u8>, seed: u64, n: nat, i: nat)
    requires 16 * n <= |base| && i < n
    ensures At64(DerivedPrefix(base, seed, n), 16 * i) == Add64(At64(base, 16 * i), seed)
    ensures At64(DerivedPrefix(base, seed, n), 16 * i + 8) == Sub64(At64(base, 16 * i + 8), seed)
  {
    hide Add64, Sub64, At64, WriteLE64;
    var before, m := DerivedPrefix(base, seed, n - 1), 16 * (n - 1);
    var x, y := Add64(At64(base, m), seed), Sub64(At64(base, m + 8), seed);
    if i == n - 1 {
      WordAfter(before, x, WriteLE64(y)); WordAfter(before + WriteLE64(x), y, []);
      assert before + WriteLE64(x) + WriteLE64(y) + [] == DerivedPrefix(base, seed, n);
    } else {
      PairOfPrefix(base, seed, n - 1, i);
      assert before + (WriteLE64(x) + WriteLE64(y)) == DerivedPrefix(base, seed, n);
      WordBefore(before, WriteLE64(x) + WriteLE64(y), 16 * i);
      WordBefore(before, WriteLE64(x) + WriteLE64(y), 16 * i + 8);
    }
  }

  lemma WordAfter(before: seq<u8>, x: u64, after: seq<u8>)
    ensures At64(before + WriteLE64(x) + after, |before|) == x
  {
    hide ReadLE, WriteLE64;
    assert (before + WriteLE64(x) + after)[|before|..][..8] == WriteLE64(x)[..8];
    ReadWriteLE64(x);
  }

  lemma WordBefore(b: seq<u8>, more: seq<u8>, off: nat)
    requires off + 8 <= |b|
    ensures At64(b + more, off) == At64(b, off)
  {
    hide ReadLE;
    assert (b + more)[off..][..8] == b[off..][..8];
  }

  lemma {:induction false} SeedZeroChangesNothing(base: seq<u8>, n: nat)
    requires 16 * n <= |base|
    ensures DerivedPrefix(base, 0, n) == base[..16 * n]
  {
    hide Add64, Sub64, At64, WriteLE64;
    if n > 0 {
      SeedZeroChangesNothing(base, n - 1);
      var s := 16 * (n - 1);
      RewriteWord(base, s);
      RewriteWord(base, s + 8);
      assert base[..16 * n] == base[..s] + base[s..s + 8] + base[s + 8..s + 16];
    }
  }

  lemma RewriteWord(base: seq<u8>, s: nat)
    requires s + 8 <= |base|
    ensures WriteLE64(Add64(At64(base, s), 0)) == WriteLE64(Sub64(At64(base, s), 0)) == base[s..s + 8]
  {
    hide ReadLE, WriteLE;
    assert base[s..][..8] == base[s..s + 8];
    WriteReadLE(base[s..s + 8]);
  }
}
