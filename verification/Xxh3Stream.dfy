/** The streaming XXH3 state: resets, updates and digests.  `fed` records the bytes given since the
    last reset and `key` how that reset keyed the state; every digest is the one-shot hash of
    `fed` under `key`. */
module Xxh3Stream {
  import opened Words
  import opened Chunks
  import opened Mult128
  import opened Xxh3Kernel
  import opened Xxh3Short
  import opened Xxh3Secret
  import opened Xxh3Long
  import opened Xxh3OneShot

  const BUFFER_SIZE := 256
  const BUFFER_STRIPES := 4

  datatype Pointer = Null | Bytes(bytes: seq<u8>)

  /** XXH3_consumeStripes: absorbs whole stripes and scrambles at most once.  `data` and `m` are
      the bytes fed so far and the stripes consumed before the call. */
  method ConsumeStripes(acc: array<u64>, nbStripesSoFar: nat, nbStripesPerBlock: nat, input: seq<u8>,
                        nbStripes: nat, secret: seq<u8>, secretLimit: nat, ghost data: seq<u8>, ghost m: nat)
    returns (soFar: nat)
    requires acc.Length == 8 && |secret| >= SECRET_SIZE_MIN
    requires secretLimit == SecretLimit(secret) && nbStripesPerBlock == StripesPerBlock(secret)
    requires nbStripes <= nbStripesPerBlock
    requires 64 * (m + nbStripes) <= |data| && input == data[64 * m..64 * (m + nbStripes)]
    requires nbStripesSoFar == Position(secret, m)
    requires acc[..] == Fold(data, secret, m)
    modifies acc
    ensures acc[..] == Fold(data, secret, m + nbStripes)
    ensures soFar == Position(secret, m + nbStripes)
  {
    hide Accumulate512, AccumulateRun, Scramble, Fold, Position, StripesPerBlock;
    PositionAfter(secret, m, nbStripes);
    if nbStripesPerBlock - nbStripesSoFar <= nbStripes {
      var toEnd := nbStripesPerBlock - nbStripesSoFar;
      var afterBlock := nbStripes - toEnd;
      assert input[..64 * toEnd] == data[64 * m..64 * (m + toEnd)];
      AccumulateLoop(acc, input[..64 * toEnd], secret[8 * nbStripesSoFar..], toEnd);
      ScrambleScalar(acc, secret[secretLimit..]);
      RunContinuesFold(data, secret, m, toEnd);
      PositionAfter(secret, m, toEnd);
      assert input[64 * toEnd..] == data[64 * (m + toEnd)..64 * (m + toEnd + afterBlock)];
      AccumulateLoop(acc, input[64 * toEnd..], secret, afterBlock);
      assert secret[0..] == secret;
      RunContinuesFold(data, secret, m + toEnd, afterBlock);
      soFar := afterBlock;
    } else {
      AccumulateLoop(acc, input, secret[8 * nbStripesSoFar..], nbStripes);
      RunContinuesFold(data, secret, m, nbStripes);
      soFar := nbStripesSoFar + nbStripes;
    }
  }

  /** What the fields of a state say about the bytes fed to it, of which `flushed` whole buffers
      have been consumed. */
  ghost predicate Buffering(fed: seq<u8>, flushed: nat, secret: seq<u8>, acc: seq<u64>, soFar: nat,
                            buffer: seq<u8>, buffered: nat)
    requires |secret| >= SECRET_SIZE_MIN
  {
    && |buffer| == BUFFER_SIZE && buffered <= BUFFER_SIZE
    && |fed| == BUFFER_SIZE * flushed + buffered
    && (flushed > 0 ==> buffered > 0)
    && buffer[..buffered] == fed[BUFFER_SIZE * flushed..]
    && acc == Fold(fed, secret, BUFFER_STRIPES * flushed)
    && soFar == Position(secret, BUFFER_STRIPES * flushed)
    && (flushed > 0 && buffered <= BUFFER_SIZE - STRIPE_LEN ==>
          buffer[BUFFER_SIZE - STRIPE_LEN..]
          == fed[BUFFER_SIZE * flushed - STRIPE_LEN..BUFFER_SIZE * flushed])
  }

  /** The same, right after everything buffered has been consumed and before the rest of the
      input is buffered. */
  ghost predicate Consumed(data: seq<u8>, flushed: nat, secret: seq<u8>, acc: seq<u64>, soFar: nat)
    requires |secret| >= SECRET_SIZE_MIN
  {
    && BUFFER_SIZE * flushed <= |data|
    && acc == Fold(data, secret, BUFFER_STRIPES * flushed)
    && soFar == Position(secret, BUFFER_STRIPES * flushed)
  }

  class State {
    const acc: array<u64>
    const customSecret: array<u8>
    const buffer: array<u8>
    var bufferedSize: nat
    var nbStripesSoFar: nat
    var totalLen: u64
    var nbStripesPerBlock: nat
    var secretLimit: nat
    var seed: u64
    var extSecret: Pointer
    ghost var key: Key
    ghost var fed: seq<u8>
    ghost var flushed: nat

    ghost predicate Shape()
    {
      && acc.Length == 8 && customSecret.Length == 192 && buffer.Length == BUFFER_SIZE
      && buffer != customSecret && acc as object != buffer && acc as object != customSecret
    }

    /** Holds of every state that was initialised once, whatever resets and failed resets came
        after: a stored seed means its secret is in the cache. */
    ghost predicate SeedCached()
      reads this`seed, customSecret
    {
      Shape() && (seed != 0 ==> customSecret[..] == DerivedSecret(seed))
    }

    /** The secret the state works with. */
    function Secret(): seq<u8>
      reads this`extSecret, customSecret
    {
      if extSecret.Null? then customSecret[..] else extSecret.bytes
    }

    /** Seed and secret are what the key asks for. */
    ghost predicate Keyed()
      reads this`seed, this`extSecret, this`key, this`secretLimit, this`nbStripesPerBlock, customSecret
    {
      && SeedCached() && key.Valid()
      && Secret() == key.LongSecret() && |Secret()| >= SECRET_SIZE_MIN
      && seed == key.ShortSeed()
      && (seed == 0 ==> Secret() == key.ShortSecret())
      && secretLimit == SecretLimit(Secret())
      && nbStripesPerBlock == StripesPerBlock(Secret())
    }

    /** The invariant of a state that has been reset successfully. */
    ghost predicate Ready()
      reads this, acc, customSecret, buffer
    {
      && Keyed()
      && totalLen == Len64(|fed|)
      && Buffering(fed, flushed, Secret(), acc[..], nbStripesSoFar, buffer[..], bufferedSize)
    }

    /** XXH3_createState: the memory is uninitialised except for the seed. */
    constructor ()
      ensures SeedCached() && fresh(acc) && fresh(customSecret) && fresh(buffer)
    {
      acc := new u64[8];
      customSecret := new u8[192];
      buffer := new u8[BUFFER_SIZE];
      bufferedSize, nbStripesSoFar, totalLen, nbStripesPerBlock, secretLimit := 0, 0, 0, 0, 0;
      seed := 0;
      extSecret := Null;
      key, fed, flushed := Plain, [], 0;
    }

    /** XXH3_reset_internal.  The difference of a secret size below 64 and 64 wraps. */
    method ResetInternal(newSeed: u64, secret: Pointer, secretSize: u64)
      requires Shape()
      modifies this, acc
      ensures acc[..] == InitAcc()
      ensures bufferedSize == 0 && nbStripesSoFar == 0 && totalLen == 0
      ensures seed == newSeed && extSecret == secret && fed == [] && flushed == 0
      ensures secretLimit == Sub64(secretSize, STRIPE_LEN) && nbStripesPerBlock == secretLimit / 8
    {
      hide InitAcc;
      bufferedSize, nbStripesSoFar, totalLen := 0, 0, 0;
      forall i | 0 <= i < 8 { acc[i] := InitAcc()[i]; }
      assert acc[..] == InitAcc();
      seed := newSeed;
      extSecret := secret;
      secretLimit := Sub64(secretSize, STRIPE_LEN);
      nbStripesPerBlock := secretLimit / 8;
      fed, flushed := [], 0;
    }

    /** XXH3_64bits_reset and XXH3_128bits_reset */
    method Reset()
      requires SeedCached()
      modifies this, acc
      ensures Ready() && key == Plain && fed == []
    {
      hide KSecret, InitAcc;
      ResetInternal(0, Bytes(KSecret()), 192);
      key := Plain;
      assert acc[..] == Fold(fed, Secret(), 0);
    }

    /** XXH3_64bits_reset_withSecret and XXH3_128bits_reset_withSecret.  The state is overwritten
        before the secret is checked; a refused secret leaves it without a seed. */
    method ResetWithSecret(secret: Pointer, secretSize: u64) returns (ok: bool)
      requires SeedCached() && (secret.Bytes? ==> |secret.bytes| == secretSize)
      modifies this, acc
      ensures SeedCached() && fed == []
      ensures ok == (secret.Bytes? && secretSize >= SECRET_SIZE_MIN)
      ensures ok ==> Ready() && key == WithSecret(secret.bytes)
      ensures !ok ==> seed == 0
    {
      hide InitAcc;
      ResetInternal(0, secret, secretSize);
      if secret.Null? { return false; }
      if secretSize < SECRET_SIZE_MIN { return false; }
      key := WithSecret(secret.bytes);
      assert acc[..] == Fold(fed, Secret(), 0);
      return true;
    }

    /** XXH3_64bits_reset_withSeed and XXH3_128bits_reset_withSeed: the secret is derived only when
        the seed differs from the stored one. */
    method ResetWithSeed(newSeed: u64)
      requires SeedCached()
      modifies this, acc, customSecret
      ensures Ready() && fed == []
      ensures key == if newSeed == 0 then Plain else WithSeed(newSeed)
    {
      hide KSecret, InitAcc, DerivedSecret;
      if newSeed == 0 {
        Reset();
        return;
      }
      if newSeed != seed {
        InitCustomSecretScalar(customSecret, newSeed);
      }
      ResetInternal(newSeed, Null, 192);
      key := WithSeed(newSeed);
      assert acc[..] == Fold(fed, Secret(), 0);
    }

    /** XXH3_update, shared by XXH3_64bits_update and XXH3_128bits_update. */
    method Update(input: seq<u8>)
      requires Ready()
      modifies this`totalLen, this`bufferedSize, this`nbStripesSoFar, this`fed, this`flushed, acc, buffer
      ensures Ready() && fed == old(fed) + input
    {
      hide Ready, Keyed, Buffering, Consumed, StripesPerBlock, Secret, Add64, Len64;
      ReadyFacts();
      var secret := Secret();
      totalLen := Add64(totalLen, Len64(|input|));
      Len64Sum(|fed|, |input|);
      if bufferedSize + |input| <= BUFFER_SIZE {
        BufferMore(fed, flushed, input, secret, acc[..], nbStripesSoFar, buffer[..], bufferedSize);
        Store(buffer, bufferedSize, input);
        bufferedSize := bufferedSize + |input|;
        fed := fed + input;
        ReadyFrom();
        return;
      }
      var p := ConsumeBuffers(input, secret);
      assert input[p..] == (fed + input)[BUFFER_SIZE * flushed..];
      BufferRest(fed + input, flushed, input[p..], secret, acc[..], nbStripesSoFar, buffer[..]);
      Store(buffer, 0, input[p..]);
      bufferedSize := |input| - p;
      fed := fed + input;
      ReadyFrom();
    }

    /** The part of XXH3_update that consumes whole buffers and keeps the last stripe. */
    method ConsumeBuffers(input: seq<u8>, secret: seq<u8>) returns (p: nat)
      requires Shape() && |secret| >= SECRET_SIZE_MIN
      requires secretLimit == SecretLimit(secret) && nbStripesPerBlock == StripesPerBlock(secret)
      requires Buffering(fed, flushed, secret, acc[..], nbStripesSoFar, buffer[..], bufferedSize)
      requires bufferedSize <= BUFFER_SIZE < bufferedSize + |input|
      modifies this`bufferedSize, this`nbStripesSoFar, this`flushed, acc, buffer
      ensures p < |input| <= p + BUFFER_SIZE && flushed > 0
      ensures |fed| + p == BUFFER_SIZE * flushed
      ensures Consumed(fed + input, flushed, secret, acc[..], nbStripesSoFar)
      ensures buffer[BUFFER_SIZE - STRIPE_LEN..] == (fed + input)[|fed| + p - STRIPE_LEN..|fed| + p]
    {
      hide Buffering, Consumed, StripesPerBlock;
      p := 0;
      if bufferedSize > 0 {
        p := CompleteBuffer(input, secret);
      } else {
        NothingBuffered(fed, flushed, input, secret, acc[..], nbStripesSoFar, buffer[..]);
      }
      if |input| - p > BUFFER_SIZE {
        p := ConsumeInput(input, p, secret);
        var stripe := input[p - STRIPE_LEN..p];
        Store(buffer, BUFFER_SIZE - STRIPE_LEN, stripe);
        TailStored(fed, input, p, buffer[..], stripe);
      }
    }

    lemma ReadyFacts()
      requires Ready()
      ensures Keyed() && Shape() && |Secret()| >= SECRET_SIZE_MIN
      ensures secretLimit == SecretLimit(Secret()) && nbStripesPerBlock == StripesPerBlock(Secret())
      ensures acc.Length == 8 && buffer.Length == BUFFER_SIZE && buffer != customSecret
      ensures totalLen == Len64(|fed|)
      ensures Buffering(fed, flushed, Secret(), acc[..], nbStripesSoFar, buffer[..], bufferedSize)
      ensures bufferedSize <= BUFFER_SIZE && |fed| == BUFFER_SIZE * flushed + bufferedSize
    {
      hide KSecret, DerivedSecret, Fold, Position;
    }

    lemma ReadyFrom()
      requires Keyed() && totalLen == Len64(|fed|)
      requires Buffering(fed, flushed, Secret(), acc[..], nbStripesSoFar, buffer[..], bufferedSize)
      ensures Ready()
    {
      hide KSecret, DerivedSecret, Buffering;
    }

    /** The part of XXH3_update that fills the buffer and consumes it. */
    method CompleteBuffer(input: seq<u8>, secret: seq<u8>) returns (p: nat)
      requires Shape() && |secret| >= SECRET_SIZE_MIN
      requires secretLimit == SecretLimit(secret) && nbStripesPerBlock == StripesPerBlock(secret)
      requires Buffering(fed, flushed, secret, acc[..], nbStripesSoFar, buffer[..], bufferedSize)
      requires 0 < bufferedSize <= BUFFER_SIZE < bufferedSize + |input|
      modifies this`bufferedSize, this`nbStripesSoFar, this`flushed, acc, buffer
      ensures p == BUFFER_SIZE - old(bufferedSize) < |input| && bufferedSize == 0
      ensures flushed == old(flushed) + 1 && |fed| + p == BUFFER_SIZE * flushed
      ensures Consumed(fed + input, flushed, secret, acc[..], nbStripesSoFar)
      ensures buffer[BUFFER_SIZE - STRIPE_LEN..] == (fed + input)[|fed| + p - STRIPE_LEN..|fed| + p]
    {
      hide Fold, Position, StripesPerBlock;
      StripesPerBlockMin(secret);
      ghost var data := fed + input;
      ghost var m := BUFFER_STRIPES * flushed;
      FoldOfPrefix(fed, input, secret, m);
      p := BUFFER_SIZE - bufferedSize;
      BufferCompleted(fed, input, 64 * m, buffer[..], bufferedSize);
      Store(buffer, bufferedSize, input[..p]);
      assert buffer[..] == data[64 * m..64 * (m + BUFFER_STRIPES)];
      nbStripesSoFar := ConsumeStripes(acc, nbStripesSoFar, nbStripesPerBlock, buffer[..], BUFFER_STRIPES,
                                       secret, secretLimit, data, m);
      bufferedSize := 0;
      flushed := flushed + 1;
      assert buffer[BUFFER_SIZE - STRIPE_LEN..] == buffer[..][BUFFER_SIZE - STRIPE_LEN..];
    }

    /** The loop of XXH3_update over whole buffers of input. */
    method ConsumeInput(input: seq<u8>, start: nat, secret: seq<u8>) returns (p: nat)
      requires Shape() && |secret| >= SECRET_SIZE_MIN
      requires secretLimit == SecretLimit(secret) && nbStripesPerBlock == StripesPerBlock(secret)
      requires |input| - start > BUFFER_SIZE && |fed| + start == BUFFER_SIZE * flushed
      requires Consumed(fed + input, flushed, secret, acc[..], nbStripesSoFar)
      modifies this`nbStripesSoFar, this`flushed, acc
      ensures start + BUFFER_SIZE <= p < |input| <= p + BUFFER_SIZE
      ensures |fed| + p == BUFFER_SIZE * flushed
      ensures Consumed(fed + input, flushed, secret, acc[..], nbStripesSoFar)
    {
      hide Fold, Position, StripesPerBlock;
      StripesPerBlockMin(secret);
      ghost var data := fed + input;
      p := start;
      while p < |input| - BUFFER_SIZE
        invariant start <= p < |input| && |fed| + p == BUFFER_SIZE * flushed
        invariant p == start || start + BUFFER_SIZE <= p
        invariant Consumed(data, flushed, secret, acc[..], nbStripesSoFar)
      {
        ghost var m := BUFFER_STRIPES * flushed;
        assert 64 * m == |fed| + p && 64 * (m + BUFFER_STRIPES) == |fed| + (p + BUFFER_SIZE);
        SliceOfInput(fed, input, p, p + BUFFER_SIZE);
        nbStripesSoFar := ConsumeStripes(acc, nbStripesSoFar, nbStripesPerBlock, input[p..p + BUFFER_SIZE],
                                         BUFFER_STRIPES, secret, secretLimit, data, m);
        p := p + BUFFER_SIZE;
        flushed := flushed + 1;
      }
    }

    /** XXH3_digest_long: works on a copy of the accumulators. */
    method DigestLong() returns (copy: array<u64>)
      requires Ready() && |fed| > MIDSIZE_MAX
      ensures fresh(copy) && copy.Length == 8
      ensures copy[..] == LongAcc(fed, Secret())
    {
      hide Accumulate512, Keyed, Buffering;
      ReadyFacts();
      var secret := Secret();
      copy := new u64[8](i requires 0 <= i < acc.Length reads acc => acc[i]);
      assert copy[..] == acc[..];
      if bufferedSize >= STRIPE_LEN {
        DigestBuffered(copy, secret);
      } else {
        var catchupSize := STRIPE_LEN - bufferedSize;
        var lastStripe := buffer[BUFFER_SIZE - catchupSize..] + buffer[..bufferedSize];
        LastStripe(fed, flushed, secret, acc[..], nbStripesSoFar, buffer[..], bufferedSize);
        assert lastStripe == buffer[..][BUFFER_SIZE - catchupSize..] + buffer[..][..bufferedSize];
        Accumulate512Scalar(copy, lastStripe, secret[secretLimit - SECRET_LASTACC_START..]);
      }
    }

    /** The branch of XXH3_digest_long for at least one whole stripe in the buffer. */
    method DigestBuffered(copy: array<u64>, secret: seq<u8>)
      requires Shape() && |secret| >= SECRET_SIZE_MIN
      requires secretLimit == SecretLimit(secret) && nbStripesPerBlock == StripesPerBlock(secret)
      requires Buffering(fed, flushed, secret, acc[..], nbStripesSoFar, buffer[..], bufferedSize)
      requires bufferedSize >= STRIPE_LEN && |fed| > STRIPE_LEN
      requires copy != acc && copy.Length == 8 && copy[..] == acc[..]
      modifies copy
      ensures copy[..] == LongAcc(fed, secret)
    {
      hide Fold, Position, Accumulate512, StripesPerBlock;
      StripesPerBlockMin(secret);
      ghost var m := BUFFER_STRIPES * flushed;
      var nbStripes := (bufferedSize - 1) / STRIPE_LEN;
      SliceOfSlice(buffer[..], fed, 64 * m, bufferedSize, 0, 64 * nbStripes);
      SliceOfSlice(buffer[..], fed, 64 * m, bufferedSize, bufferedSize - STRIPE_LEN, bufferedSize);
      var stripes := buffer[..][0..64 * nbStripes];
      var soFar := ConsumeStripes(copy, nbStripesSoFar, nbStripesPerBlock, stripes, nbStripes,
                                  secret, secretLimit, fed, m);
      assert m + nbStripes == (|fed| - 1) / 64;
      var last := buffer[..][bufferedSize - STRIPE_LEN..bufferedSize];
      Accumulate512Scalar(copy, last, secret[secretLimit - SECRET_LASTACC_START..]);
    }

    /** XXH3_64bits_digest.  One-shot inputs are shorter than 2^64 bytes. */
    method Digest64() returns (h: u64)
      requires Ready() && |fed| < TWO64
      ensures h == Hash64(key, fed)
    {
      hide KSecret, DerivedSecret, LongAcc, ShortHash64, Buffering, MergeAccs;
      var secret := Secret();
      if totalLen > MIDSIZE_MAX {
        var copy := DigestLong();
        h := MergeAccsLoop(copy, secret, SECRET_MERGEACCS_START, Mul64(totalLen, PRIME64_1));
        return;
      }
      NothingConsumed();
      if seed != 0 {
        h := OneShot64(WithSeed(seed), buffer[..totalLen]);
      } else {
        h := OneShot64(WithSecret(secret), buffer[..totalLen]);
      }
    }

    /** XXH3_128bits_digest */
    method Digest128() returns (h: U128)
      requires Ready() && |fed| < TWO64
      ensures h == Hash128(key, fed)
    {
      hide KSecret, DerivedSecret, LongAcc, ShortHash128, Buffering, MergeAccs;
      var secret := Secret();
      if totalLen > MIDSIZE_MAX {
        var copy := DigestLong();
        var low := MergeAccsLoop(copy, secret, SECRET_MERGEACCS_START, Mul64(totalLen, PRIME64_1));
        var high := MergeAccsLoop(copy, secret, secretLimit + STRIPE_LEN - 64 - SECRET_MERGEACCS_START,
                                  Complement64(Mul64(totalLen, PRIME64_2)));
        h := U128(low, high);
        return;
      }
      NothingConsumed();
      if seed != 0 {
        h := OneShot128(WithSeed(seed), buffer[..totalLen]);
      } else {
        h := OneShot128(WithSecret(secret), buffer[..totalLen]);
      }
    }

    /** A short input is still in the buffer as a whole. */
    lemma NothingConsumed()
      requires Ready() && |fed| <= MIDSIZE_MAX
      ensures bufferedSize == |fed| == totalLen && buffer[..totalLen] == fed
    {
      hide Fold, Position, Keyed;
      ReadyFacts();
      assert flushed == 0;
      assert buffer[..][..bufferedSize] == fed[0..];
    }
  }

  lemma StripesPerBlockMin(secret: seq<u8>)
    requires |secret| >= SECRET_SIZE_MIN
    ensures StripesPerBlock(secret) >= 9
  {
  }

  lemma Len64Sum(a: nat, b: nat)
    ensures Add64(Len64(a), Len64(b)) == Len64(a + b)
  {
  }

  lemma SliceOfInput(fed: seq<u8>, input: seq<u8>, i: nat, j: nat)
    requires i <= j <= |input|
    ensures (fed + input)[|fed| + i..|fed| + j] == input[i..j]
  {
  }

  lemma SliceOfSlice(buffer: seq<u8>, fed: seq<u8>, consumed: nat, buffered: nat, i: nat, j: nat)
    requires buffered <= |buffer| && consumed <= |fed| && buffer[..buffered] == fed[consumed..] && i <= j <= buffered
    ensures buffer[i..j] == fed[consumed + i..consumed + j]
  {
    assert buffer[i..j] == buffer[..buffered][i..j];
    assert fed[consumed + i..consumed + j] == fed[consumed..][i..j];
  }

  lemma BufferCompleted(fed: seq<u8>, input: seq<u8>, consumed: nat, buffer: seq<u8>, buffered: nat)
    requires |buffer| == BUFFER_SIZE && 0 < buffered <= BUFFER_SIZE < buffered + |input|
    requires |fed| == consumed + buffered && buffer[..buffered] == fed[consumed..]
    ensures var p := BUFFER_SIZE - buffered;
            buffer[..buffered] + input[..p] + buffer[buffered + |input[..p]|..]
            == (fed + input)[consumed..consumed + BUFFER_SIZE]
  {
  }

  lemma TailStored(fed: seq<u8>, input: seq<u8>, p: nat, buffer: seq<u8>, stripe: seq<u8>)
    requires BUFFER_SIZE <= p <= |input| && |buffer| == BUFFER_SIZE && stripe == input[p - STRIPE_LEN..p]
    requires buffer == buffer[..BUFFER_SIZE - STRIPE_LEN] + stripe + buffer[BUFFER_SIZE..]
    ensures buffer[BUFFER_SIZE - STRIPE_LEN..] == (fed + input)[|fed| + p - STRIPE_LEN..|fed| + p]
  {
    assert buffer[BUFFER_SIZE - STRIPE_LEN..] == stripe;
    assert (fed + input)[|fed| + p - STRIPE_LEN..|fed| + p] == stripe;
  }

  /** With an empty buffer nothing has been fed yet. */
  lemma NothingBuffered(fed: seq<u8>, flushed: nat, input: seq<u8>, secret: seq<u8>, acc: seq<u64>,
                        soFar: nat, buffer: seq<u8>)
    requires |secret| >= SECRET_SIZE_MIN && Buffering(fed, flushed, secret, acc, soFar, buffer, 0)
    ensures fed == [] && flushed == 0 && Consumed(fed + input, 0, secret, acc, soFar)
  {
    hide Fold, Position;
    FoldOfPrefix(fed, input, secret, 0);
  }

  /** Input that fits is appended to the buffer. */
  lemma BufferMore(fed: seq<u8>, flushed: nat, input: seq<u8>, secret: seq<u8>, acc: seq<u64>,
                   soFar: nat, buffer: seq<u8>, buffered: nat)
    requires |secret| >= SECRET_SIZE_MIN
    requires Buffering(fed, flushed, secret, acc, soFar, buffer, buffered)
    requires buffered + |input| <= BUFFER_SIZE
    ensures Buffering(fed + input, flushed, secret, acc, soFar,
                      buffer[..buffered] + input + buffer[buffered + |input|..], buffered + |input|)
  {
    hide Fold, Position;
    FoldOfPrefix(fed, input, secret, BUFFER_STRIPES * flushed);
    var after := buffer[..buffered] + input + buffer[buffered + |input|..];
    assert after[..buffered + |input|] == (fed + input)[BUFFER_SIZE * flushed..];
    if buffered + |input| <= BUFFER_SIZE - STRIPE_LEN {
      assert after[BUFFER_SIZE - STRIPE_LEN..] == buffer[BUFFER_SIZE - STRIPE_LEN..];
    }
  }

  /** After consuming whole buffers the rest of the input goes to the front of the buffer; its
      last 64 bytes stay those of the last consumed stripe unless the rest reaches them. */
  lemma BufferRest(data: seq<u8>, flushed: nat, rest: seq<u8>, secret: seq<u8>, acc: seq<u64>,
                   soFar: nat, buffer: seq<u8>)
    requires |secret| >= SECRET_SIZE_MIN && |buffer| == BUFFER_SIZE
    requires Consumed(data, flushed, secret, acc, soFar)
    requires BUFFER_SIZE * flushed <= |data| && rest == data[BUFFER_SIZE * flushed..]
    requires 0 < |rest| <= BUFFER_SIZE && flushed > 0
    requires buffer[BUFFER_SIZE - STRIPE_LEN..] == data[BUFFER_SIZE * flushed - STRIPE_LEN..BUFFER_SIZE * flushed]
    ensures Buffering(data, flushed, secret, acc, soFar, buffer[..0] + rest + buffer[0 + |rest|..], |rest|)
  {
    hide Fold, Position;
    var after := buffer[..0] + rest + buffer[0 + |rest|..];
    assert after[..|rest|] == rest;
    if |rest| <= BUFFER_SIZE - STRIPE_LEN {
      assert after[BUFFER_SIZE - STRIPE_LEN..] == buffer[BUFFER_SIZE - STRIPE_LEN..];
    }
  }

  /** With less than a stripe buffered, the last 64 bytes fed are the end of the last consumed
      stripe, kept at the end of the buffer, and what is buffered. */
  lemma LastStripe(fed: seq<u8>, flushed: nat, secret: seq<u8>, acc: seq<u64>, soFar: nat,
                   buffer: seq<u8>, buffered: nat)
    requires |secret| >= SECRET_SIZE_MIN && Buffering(fed, flushed, secret, acc, soFar, buffer, buffered)
    requires |fed| > MIDSIZE_MAX && buffered < STRIPE_LEN
    ensures buffer[BUFFER_SIZE - (STRIPE_LEN - buffered)..] + buffer[..buffered] == fed[|fed| - STRIPE_LEN..]
    ensures acc == Fold(fed, secret, (|fed| - 1) / 64)
  {
    hide Fold, Position;
    var consumed := BUFFER_SIZE * flushed;
    assert BUFFER_STRIPES * flushed == (|fed| - 1) / 64;
    assert buffer[BUFFER_SIZE - (STRIPE_LEN - buffered)..] == buffer[BUFFER_SIZE - STRIPE_LEN..][buffered..];
    assert fed[consumed - STRIPE_LEN..consumed][buffered..] == fed[|fed| - STRIPE_LEN..consumed];
    assert fed[|fed| - STRIPE_LEN..] == fed[|fed| - STRIPE_LEN..consumed] + fed[consumed..];
  }

  // ---- whole runs ---------------------------------------------------------------------

  /** The key a reset stores: seed zero is no seed. */
  function Stored(key: Key): Key { if key == WithSeed(0) then Plain else key }

  lemma StoredHashesAlike(key: Key, input: seq<u8>)
    requires key.Valid()
    ensures Stored(key).Valid()
    ensures Hash64(Stored(key), input) == Hash64(key, input)
    ensures Hash128(Stored(key), input) == Hash128(key, input)
  {
    hide Hash64, Hash128, KSecret;
    EquivalentKeys(input);
  }

  method ResetTo(state: State, key: Key)
    requires state.SeedCached() && key.Valid() && (key.WithSecret? ==> |key.secret| < TWO64)
    modifies state, state.acc, state.customSecret
    ensures state.Ready() && state.key == Stored(key) && state.fed == []
  {
    match key {
      case Plain => state.Reset();
      case WithSecret(secret) => var ok := state.ResetWithSecret(Bytes(secret), |secret|);
      case WithSeed(seed) => state.ResetWithSeed(seed);
    }
  }

  method UpdateAndDigest(state: State, chunk: seq<u8>) returns (d64: u64, d128: U128)
    requires state.Ready() && |state.fed| + |chunk| < TWO64
    modifies state, state.acc, state.buffer
    ensures state.Ready() && state.fed == old(state.fed) + chunk && state.key == old(state.key)
    ensures state.key.Valid()
    ensures d64 == Hash64(state.key, state.fed) && d128 == Hash128(state.key, state.fed)
  {
    hide Hash64, Hash128;
    state.Update(chunk);
    d64 := state.Digest64();
    d128 := state.Digest128();
  }

  /** One client run: a keyed reset of any initialised state, then updates with a digest of both
      widths after each.  However the input is cut, each digest is the one-shot hash of the bytes
      fed so far, and earlier digests do not show in later ones. */
  method DigestEveryPrefix(state: State, key: Key, chunks: seq<seq<u8>>)
    returns (h64: seq<u64>, h128: seq<U128>)
    requires state.SeedCached() && key.Valid() && |Flatten(chunks)| < TWO64
    requires key.WithSecret? ==> |key.secret| < TWO64
    modifies state, state.acc, state.customSecret, state.buffer
    ensures state.Ready()
    ensures |h64| == |h128| == |chunks|
    ensures forall i :: 0 <= i < |chunks| ==> h64[i] == Hash64(key, Flatten(chunks[..i + 1]))
    ensures forall i :: 0 <= i < |chunks| ==> h128[i] == Hash128(key, Flatten(chunks[..i + 1]))
  {
    hide Hash64, Hash128, State.Ready, Stored, Key.Valid;
    ResetTo(state, key);
    h64, h128 := [], [];
    var n := 0;
    while n < |chunks|
      invariant 0 <= n <= |chunks|
      invariant state.Ready() && state.fed == Flatten(chunks[..n]) && state.key == Stored(key)
      invariant |h64| == |h128| == n
      invariant forall i :: 0 <= i < n ==> h64[i] == Hash64(key, Flatten(chunks[..i + 1]))
      invariant forall i :: 0 <= i < n ==> h128[i] == Hash128(key, Flatten(chunks[..i + 1]))
    {
      assert chunks[..n + 1][..n] == chunks[..n];
      FlattenPrefix(chunks, n + 1);
      var d64, d128 := UpdateAndDigest(state, chunks[n]);
      StoredHashesAlike(key, state.fed);
      h64, h128 := h64 + [d64], h128 + [d128];
      n := n + 1;
    }
  }

  /** One use of a state: a reset, which is refused if the secret is too short, and updates. */
  datatype Session = Session(key: Key, chunks: seq<seq<u8>>)

  datatype Digests = Digests(h64: seq<u64>, h128: seq<U128>)

  ghost predicate OneShotDigests(session: Session, d: Digests)
  {
    if session.key.Valid() then
      && |d.h64| == |d.h128| == |session.chunks|
      && (forall i :: 0 <= i < |session.chunks| ==>
            d.h64[i] == Hash64(session.key, Flatten(session.chunks[..i + 1])))
      && (forall i :: 0 <= i < |session.chunks| ==>
            d.h128[i] == Hash128(session.key, Flatten(session.chunks[..i + 1])))
    else d == Digests([], [])
  }

  ghost predicate Bounded(session: Session)
  {
    |Flatten(session.chunks)| < TWO64 && (session.key.WithSecret? ==> |session.key.secret| < TWO64)
  }

  /** Any mix of plain, secret, seeded and refused resets of one state: what is left of a session,
      its seed and the cached secret among it, never shows in the digests of a later one. */
  method ReuseState(state: State, sessions: seq<Session>) returns (ds: seq<Digests>)
    requires state.SeedCached() && forall i :: 0 <= i < |sessions| ==> Bounded(sessions[i])
    modifies state, state.acc, state.customSecret, state.buffer
    ensures state.SeedCached() && |ds| == |sessions|
    ensures forall i :: 0 <= i < |sessions| ==> OneShotDigests(sessions[i], ds[i])
  {
    hide OneShotDigests, State.SeedCached;
    ds := [];
    var n := 0;
    while n < |sessions|
      invariant 0 <= n <= |sessions| && |ds| == n && state.SeedCached()
      invariant forall i :: 0 <= i < n ==> OneShotDigests(sessions[i], ds[i])
    {
      var d := UseState(state, sessions[n]);
      ds := ds + [d];
      n := n + 1;
    }
  }

  method UseState(state: State, session: Session) returns (d: Digests)
    requires state.SeedCached() && Bounded(session)
    modifies state, state.acc, state.customSecret, state.buffer
    ensures state.SeedCached() && OneShotDigests(session, d)
  {
    hide Hash64, Hash128, KSecret, DerivedSecret, State.Ready;
    if session.key.Valid() {
      var h64, h128 := DigestEveryPrefix(state, session.key, session.chunks);
      d := Digests(h64, h128);
      ReadyIsCached(state);
    } else {
      var ok := state.ResetWithSecret(Bytes(session.key.secret), |session.key.secret|);
      d := Digests([], []);
    }
  }

  lemma ReadyIsCached(state: State)
    requires state.Ready()
    ensures state.SeedCached()
  {
    hide DerivedSecret, KSecret, Buffering;
  }
}
