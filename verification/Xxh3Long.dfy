/** XXH3 on inputs of more than 240 bytes.  The reference is a flat fold over the stripes of the
    input; the block loop of the one-shot functions is shown to compute it. */
module Xxh3Long {
  import opened Words
  import opened Mult128
  import opened Xxh3Kernel
  import opened Xxh3Short

  const STRIPE_LEN := 64
  const SECRET_LASTACC_START := 7
  const SECRET_MERGEACCS_START := 11

  // ---- the reference: one stripe at a time --------------------------------------------

  function SecretLimit(secret: seq<u8>): nat
    requires |secret| >= SECRET_SIZE_MIN
  {
    |secret| - STRIPE_LEN
  }

  /** One 64-byte stripe is consumed for every 8 bytes of secret. */
  function StripesPerBlock(secret: seq<u8>): (n: nat)
    requires |secret| >= SECRET_SIZE_MIN
    ensures n >= 9 && 8 * (n - 1) + 64 <= |secret|
  {
    SecretLimit(secret) / 8
  }

  /** The position in its block of stripe m. */
  function Position(secret: seq<u8>, m: nat): (j: nat)
    requires |secret| >= SECRET_SIZE_MIN
    ensures j < StripesPerBlock(secret)
  {
    m % StripesPerBlock(secret)
  }

  function Stripe(data: seq<u8>, n: nat): (s: seq<u8>)
    requires 64 * (n + 1) <= |data|
    ensures |s| == 64
  {
    data[64 * n..64 * (n + 1)]
  }

  /** Absorbs the stripe at position j of its block; the last stripe of a block is followed by a
      scramble. */
  function Absorb(acc: seq<u64>, stripe: seq<u8>, secret: seq<u8>, j: nat): (r: seq<u64>)
    requires |acc| == 8 && |stripe| == 64 && |secret| >= SECRET_SIZE_MIN && j < StripesPerBlock(secret)
    ensures |r| == 8
  {
    var a := Accumulate512(acc, stripe, secret[8 * j..]);
    if j + 1 == StripesPerBlock(secret) then Scramble(a, secret[SecretLimit(secret)..]) else a
  }

  function Fold(data: seq<u8>, secret: seq<u8>, n: nat): (acc: seq<u64>)
    requires 64 * n <= |data| && |secret| >= SECRET_SIZE_MIN
    ensures |acc| == 8
  {
    if n == 0 then InitAcc() else
      Absorb(Fold(data, secret, n - 1), Stripe(data, n - 1), secret, Position(secret, n - 1))
  }

  /** Only the first n stripes matter to a fold of n stripes. */
  lemma {:induction false} FoldOfPrefix(data: seq<u8>, more: seq<u8>, secret: seq<u8>, n: nat)
    requires 64 * n <= |data| && |secret| >= SECRET_SIZE_MIN
    ensures Fold(data + more, secret, n) == Fold(data, secret, n)
  {
    hide Absorb;
    if n > 0 {
      FoldOfPrefix(data, more, secret, n - 1);
      assert Stripe(data + more, n - 1) == Stripe(data, n - 1);
    }
  }

  /** The accumulators for a whole long input: all stripes but the end of the input, then its
      last 64 bytes, which may overlap the stripe before. */
  function LongAcc(data: seq<u8>, secret: seq<u8>): (acc: seq<u64>)
    requires |data| > STRIPE_LEN && |secret| >= SECRET_SIZE_MIN
    ensures |acc| == 8
  {
    Accumulate512(Fold(data, secret, (|data| - 1) / 64), data[|data| - 64..],
                  secret[SecretLimit(secret) - SECRET_LASTACC_START..])
  }

  /** Every byte of the input is read: it lies in a stripe of the fold or in the last 64 bytes. */
  lemma EveryByteIsRead(len: nat, i: nat)
    requires len > STRIPE_LEN && i < len
    ensures (i / 64 < (len - 1) / 64 && 64 * (i / 64) <= i < 64 * (i / 64 + 1) <= len) || len - 64 <= i
  {
  }

  // ---- merging ------------------------------------------------------------------------

  function Mix2Accs(acc: seq<u64>, i: nat, secret: seq<u8>, s: nat): u64
    requires |acc| == 8 && i < 7 && s + 16 <= |secret|
  {
    Mul128Fold64(Xor64(acc[i], At64(secret, s)), Xor64(acc[i + 1], At64(secret, s + 8)))
  }

  function MergeSum(acc: seq<u64>, secret: seq<u8>, s: nat, start: u64, n: nat): u64
    requires |acc| == 8 && n <= 4 && s + 64 <= |secret|
  {
    if n == 0 then start else
      Add64(MergeSum(acc, secret, s, start, n - 1), Mix2Accs(acc, 2 * (n - 1), secret, s + 16 * (n - 1)))
  }

  function MergeAccs(acc: seq<u64>, secret: seq<u8>, s: nat, start: u64): u64
    requires |acc| == 8 && s + 64 <= |secret|
  {
    Avalanche(MergeSum(acc, secret, s, start, 4))
  }

  /** XXH3_mergeAccs */
  method MergeAccsLoop(acc: array<u64>, secret: seq<u8>, s: nat, start: u64) returns (h: u64)
    requires acc.Length == 8 && s + 64 <= |secret|
    ensures h == MergeAccs(acc[..], secret, s, start)
  {
    hide Mix2Accs, Avalanche, Add64;
    var result64 := start;
    var i := 0;
    while i < 4
      invariant 0 <= i <= 4
      invariant result64 == MergeSum(acc[..], secret, s, start, i)
    {
      result64 := Add64(result64, Mix2Accs(acc[..], 2 * i, secret, s + 16 * i));
      i := i + 1;
    }
    h := Avalanche(result64);
  }

  function Complement64(x: u64): u64 { 0xFFFF_FFFF_FFFF_FFFF - x }

  /** A length as a 64-bit word. */
  function Len64(len: nat): u64 { len % 0x1_0000_0000_0000_0000 }

  function Merge64(acc: seq<u64>, secret: seq<u8>, len: nat): u64
    requires |acc| == 8 && |secret| >= SECRET_SIZE_MIN
  {
    MergeAccs(acc, secret, SECRET_MERGEACCS_START, Mul64(Len64(len), PRIME64_1))
  }

  function Merge128(acc: seq<u64>, secret: seq<u8>, len: nat): U128
    requires |acc| == 8 && |secret| >= SECRET_SIZE_MIN
  {
    U128(Merge64(acc, secret, len),
         MergeAccs(acc, secret, |secret| - 64 - SECRET_MERGEACCS_START,
                   Complement64(Mul64(Len64(len), PRIME64_2))))
  }

  // ---- the kernels in loops -----------------------------------------------------------

  /** n stripes against consecutive secret positions, with no scramble (XXH3_accumulate). */
  function AccumulateRun(acc: seq<u64>, input: seq<u8>, secret: seq<u8>, n: nat): (r: seq<u64>)
    requires |acc| == 8 && 64 * n <= |input| && (n > 0 ==> 8 * (n - 1) + 64 <= |secret|)
    ensures |r| == 8
  {
    if n == 0 then acc else
      Accumulate512(AccumulateRun(acc, input, secret, n - 1), Stripe(input, n - 1), secret[8 * (n - 1)..])
  }

  /** XXH3_accumulate */
  method AccumulateLoop(acc: array<u64>, input: seq<u8>, secret: seq<u8>, nbStripes: nat)
    requires acc.Length == 8 && 64 * nbStripes <= |input|
    requires nbStripes > 0 ==> 8 * (nbStripes - 1) + 64 <= |secret|
    modifies acc
    ensures acc[..] == AccumulateRun(old(acc[..]), input, secret, nbStripes)
  {
    hide Accumulate512;
    ghost var was := acc[..];
    var n := 0;
    while n < nbStripes
      invariant 0 <= n <= nbStripes
      invariant acc[..] == AccumulateRun(was, input, secret, n)
    {
      Accumulate512Scalar(acc, Stripe(input, n), secret[8 * n..]);
      n := n + 1;
    }
  }

  /** Positions advance with the stripes and start again with the next block. */
  lemma PositionAfter(secret: seq<u8>, m: nat, n: nat)
    requires |secret| >= SECRET_SIZE_MIN && n <= StripesPerBlock(secret)
    ensures var perBlock := StripesPerBlock(secret);
            var j := Position(secret, m) + n;
            Position(secret, m + n) == if j < perBlock then j else j - perBlock
  {
    var perBlock := StripesPerBlock(secret);
    var q, r := m / perBlock, m % perBlock;
    assert m == perBlock * q + r;
    if r + n < perBlock {
      DivUnique(m + n, perBlock, q, r + n);
    } else {
      assert perBlock * (q + 1) == perBlock * q + perBlock;
      DivUnique(m + n, perBlock, q + 1, r + n - perBlock);
    }
  }

  /** A run of stripes inside one block continues the fold; a run that completes the block
      continues it once the block is scrambled. */
  lemma {:induction false} RunContinuesFold(data: seq<u8>, secret: seq<u8>, m: nat, n: nat)
    requires 64 * (m + n) <= |data| && |secret| >= SECRET_SIZE_MIN
    requires Position(secret, m) + n <= StripesPerBlock(secret)
    ensures var j := Position(secret, m);
            var run := AccumulateRun(Fold(data, secret, m), data[64 * m..64 * (m + n)], secret[8 * j..], n);
            Fold(data, secret, m + n)
            == if j + n == StripesPerBlock(secret) then Scramble(run, secret[SecretLimit(secret)..]) else run
  {
    hide Accumulate512, Scramble, Position, StripesPerBlock;
    var j := Position(secret, m);
    if n > 0 {
      RunContinuesFold(data, secret, m, n - 1);
      RunOfSlice(Fold(data, secret, m), data, secret[8 * j..], m, n);
      assert Stripe(data[64 * m..64 * (m + n)], n - 1) == Stripe(data, m + n - 1);
      assert secret[8 * j..][8 * (n - 1)..] == secret[8 * (j + n - 1)..];
      PositionAfter(secret, m, n - 1);
    }
  }

  /** A run over a longer slice starts with the run over the shorter one. */
  lemma RunOfSlice(acc: seq<u64>, data: seq<u8>, key: seq<u8>, m: nat, n: nat)
    requires |acc| == 8 && n > 0 && 64 * (m + n) <= |data| && 8 * (n - 1) + 64 <= |key|
    ensures AccumulateRun(acc, data[64 * m..64 * (m + n)], key, n - 1)
         == AccumulateRun(acc, data[64 * m..64 * (m + n - 1)], key, n - 1)
  {
    var short, long := data[64 * m..64 * (m + n - 1)], data[64 * m..64 * (m + n)];
    assert long == short + data[64 * (m + n - 1)..64 * (m + n)];
    RunOfPrefix(acc, short, data[64 * (m + n - 1)..64 * (m + n)], key, n - 1);
  }

  lemma {:induction false} RunOfPrefix(acc: seq<u64>, input: seq<u8>, more: seq<u8>, key: seq<u8>, n: nat)
    requires |acc| == 8 && 64 * n <= |input| && (n > 0 ==> 8 * (n - 1) + 64 <= |key|)
    ensures AccumulateRun(acc, input + more, key, n) == AccumulateRun(acc, input, key, n)
  {
    hide Accumulate512;
    if n > 0 {
      RunOfPrefix(acc, input, more, key, n - 1);
      assert Stripe(input + more, n - 1) == Stripe(input, n - 1);
    }
  }

  // ---- the one-shot loop --------------------------------------------------------------

  /** The stripes in the first n blocks. */
  function StripesIn(n: nat, secret: seq<u8>): nat
    requires |secret| >= SECRET_SIZE_MIN
  {
    n * StripesPerBlock(secret)
  }

  lemma StripesInNext(n: nat, secret: seq<u8>)
    requires |secret| >= SECRET_SIZE_MIN
    ensures StripesIn(n + 1, secret) == StripesIn(n, secret) + StripesPerBlock(secret)
    ensures Position(secret, StripesIn(n, secret)) == 0
    ensures n * (64 * StripesPerBlock(secret)) == 64 * StripesIn(n, secret)
  {
    var perBlock := StripesPerBlock(secret);
    assert (n + 1) * perBlock == n * perBlock + perBlock;
    assert n * (64 * perBlock) == 64 * (n * perBlock);
    DivUnique(n * perBlock, perBlock, n, 0);
  }

  lemma StripesInMonotone(n: nat, n': nat, secret: seq<u8>)
    requires |secret| >= SECRET_SIZE_MIN && n <= n'
    ensures StripesIn(n, secret) <= StripesIn(n', secret)
  {
    MulMonotone(StripesPerBlock(secret), n, n');
  }

  /** Whole blocks and the partial block together are (len - 1) / 64 stripes. */
  lemma LastBlock(len: nat, secret: seq<u8>, nbBlocks: nat)
    requires len > 0 && |secret| >= SECRET_SIZE_MIN
    requires nbBlocks == (len - 1) / (64 * StripesPerBlock(secret))
    ensures 64 * StripesIn(nbBlocks, secret) == 64 * StripesPerBlock(secret) * nbBlocks <= len - 1
    ensures var nbStripes := ((len - 1) - 64 * StripesIn(nbBlocks, secret)) / 64;
            nbStripes < StripesPerBlock(secret) && StripesIn(nbBlocks, secret) + nbStripes == (len - 1) / 64
  {
    var perBlock := StripesPerBlock(secret);
    var rest := (len - 1) % (64 * perBlock);
    assert len - 1 == 64 * perBlock * nbBlocks + rest;
    assert 64 * perBlock * nbBlocks == 64 * (nbBlocks * perBlock);
    DivUnique(len - 1, 64, nbBlocks * perBlock + rest / 64, rest % 64);
  }

  /** One whole block of the loop. */
  method AbsorbBlock(acc: array<u64>, input: seq<u8>, secret: seq<u8>, n: nat, nbStripesPerBlock: nat)
    requires acc.Length == 8 && |secret| >= SECRET_SIZE_MIN
    requires nbStripesPerBlock == StripesPerBlock(secret)
    requires 64 * StripesIn(n, secret) <= 64 * StripesIn(n + 1, secret) <= |input|
    requires acc[..] == Fold(input, secret, StripesIn(n, secret))
    modifies acc
    ensures acc[..] == Fold(input, secret, StripesIn(n + 1, secret))
  {
    hide Scramble, AccumulateRun, Fold, StripesIn, Position, StripesPerBlock;
    StripesInNext(n, secret);
    var start := n * (STRIPE_LEN * nbStripesPerBlock);
    AccumulateLoop(acc, input[start..start + 64 * nbStripesPerBlock], secret, nbStripesPerBlock);
    ScrambleScalar(acc, secret[|secret| - STRIPE_LEN..]);
    RunContinuesFold(input, secret, StripesIn(n, secret), nbStripesPerBlock);
    assert secret[0..] == secret;
  }

  /** The loop over whole blocks. */
  method AbsorbBlocks(acc: array<u64>, input: seq<u8>, secret: seq<u8>, nbBlocks: nat, nbStripesPerBlock: nat)
    requires acc.Length == 8 && |secret| >= SECRET_SIZE_MIN
    requires nbStripesPerBlock == StripesPerBlock(secret)
    requires 64 * StripesIn(nbBlocks, secret) <= |input|
    requires acc[..] == InitAcc()
    modifies acc
    ensures acc[..] == Fold(input, secret, StripesIn(nbBlocks, secret))
  {
    StripesInMonotone(0, nbBlocks, secret);
    ZeroStripes(secret);
    hide StripesIn, StripesPerBlock, InitAcc;
    var n := 0;
    while n < nbBlocks
      invariant 0 <= n <= nbBlocks
      invariant 64 * StripesIn(n, secret) <= |input|
      invariant acc[..] == Fold(input, secret, StripesIn(n, secret))
    {
      StripesInMonotone(n, n + 1, secret);
      StripesInMonotone(n + 1, nbBlocks, secret);
      AbsorbBlock(acc, input, secret, n, nbStripesPerBlock);
      n := n + 1;
    }
  }

  /** The stripes of the last partial block and the last 64 bytes. */
  method AbsorbTail(acc: array<u64>, input: seq<u8>, secret: seq<u8>, nbBlocks: nat, blockLen: nat, nbStripes: nat)
    requires acc.Length == 8 && |input| > STRIPE_LEN && |secret| >= SECRET_SIZE_MIN
    requires blockLen == 64 * StripesPerBlock(secret) && nbStripes < StripesPerBlock(secret)
    requires StripesIn(nbBlocks, secret) + nbStripes == (|input| - 1) / 64
    requires acc[..] == Fold(input, secret, StripesIn(nbBlocks, secret))
    modifies acc
    ensures acc[..] == LongAcc(input, secret)
  {
    hide Accumulate512, AccumulateRun, StripesIn, StripesPerBlock, Position, Fold;
    StripesInNext(nbBlocks, secret);
    var start := nbBlocks * blockLen;
    AccumulateLoop(acc, input[start..start + STRIPE_LEN * nbStripes], secret, nbStripes);
    RunContinuesFold(input, secret, StripesIn(nbBlocks, secret), nbStripes);
    assert secret[0..] == secret;
    Accumulate512Scalar(acc, input[|input| - STRIPE_LEN..],
                        secret[|secret| - STRIPE_LEN - SECRET_LASTACC_START..]);
  }

  /** XXH3_hashLong_internal_loop. */
  method HashLongLoop(acc: array<u64>, input: seq<u8>, secret: seq<u8>)
    requires acc.Length == 8 && acc[..] == InitAcc()
    requires |input| > STRIPE_LEN && |secret| >= SECRET_SIZE_MIN
    modifies acc
    ensures acc[..] == LongAcc(input, secret)
  {
    hide StripesIn, InitAcc, Fold, LongAcc;
    var nbStripesPerBlock := (|secret| - STRIPE_LEN) / 8;
    var blockLen := STRIPE_LEN * nbStripesPerBlock;
    var nbBlocks := (|input| - 1) / blockLen;
    LastBlock(|input|, secret, nbBlocks);
    AbsorbBlocks(acc, input, secret, nbBlocks, nbStripesPerBlock);
    var nbStripes := ((|input| - 1) - blockLen * nbBlocks) / STRIPE_LEN;
    AbsorbTail(acc, input, secret, nbBlocks, blockLen, nbStripes);
  }

  lemma ZeroStripes(secret: seq<u8>)
    requires |secret| >= SECRET_SIZE_MIN
    ensures StripesIn(0, secret) == 0
  {
  }
}
