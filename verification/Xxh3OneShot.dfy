/** The one-shot XXH3 functions. */
module Xxh3OneShot {
  import opened Words
  import opened Mult128
  import opened Xxh3Kernel
  import opened Xxh3Short
  import opened Xxh3Secret
  import opened Xxh3Long

  /** How a hash is keyed: not at all, by a secret of the caller, or by a seed. */
  datatype Key = Plain | WithSecret(secret: seq<u8>) | WithSeed(seed: u64) {
    predicate Valid() { WithSecret? ==> |secret| >= SECRET_SIZE_MIN }

    /** The secret and the seed used for up to 240 bytes. */
    function ShortSecret(): (s: seq<u8>)
      requires Valid()
      ensures |s| >= SECRET_SIZE_MIN
    {
      if WithSecret? then secret else KSecret()
    }

    function ShortSeed(): u64 { if WithSeed? then seed else 0 }

    /** The secret used for longer inputs. */
    function LongSecret(): (s: seq<u8>)
      requires Valid()
      ensures |s| >= SECRET_SIZE_MIN
    {
      match this
      case Plain => KSecret()
      case WithSecret(s) => s
      case WithSeed(x) => if x == 0 then KSecret() else DerivedSecret(x)
    }
  }

  /** The hash of an input, as a function. */
  function Hash64(key: Key, input: seq<u8>): u64
    requires key.Valid()
  {
    if |input| <= MIDSIZE_MAX then ShortHash64(input, key.ShortSecret(), key.ShortSeed())
    else Merge64(LongAcc(input, key.LongSecret()), key.LongSecret(), |input|)
  }

  function Hash128(key: Key, input: seq<u8>): U128
    requires key.Valid()
  {
    if |input| <= MIDSIZE_MAX then ShortHash128(input, key.ShortSecret(), key.ShortSeed())
    else Merge128(LongAcc(input, key.LongSecret()), key.LongSecret(), |input|)
  }

  /** Seed zero and the default secret given explicitly are the unkeyed hash. */
  lemma EquivalentKeys(input: seq<u8>)
    ensures Hash64(WithSeed(0), input) == Hash64(Plain, input) == Hash64(WithSecret(KSecret()), input)
    ensures Hash128(WithSeed(0), input) == Hash128(Plain, input) == Hash128(WithSecret(KSecret()), input)
  {
    hide KSecret, ShortHash64, ShortHash128, LongAcc, Merge64, Merge128;
  }

  /** XXH3_hashLong_64b_internal */
  method HashLong64(input: seq<u8>, secret: seq<u8>) returns (h: u64)
    requires |input| > MIDSIZE_MAX && |secret| >= SECRET_SIZE_MIN
    ensures h == Merge64(LongAcc(input, secret), secret, |input|)
  {
    hide InitAcc, LongAcc, MergeAccs;
    var acc := new u64[8](i requires 0 <= i < 8 => InitAcc()[i]);
    assert acc[..] == InitAcc();
    HashLongLoop(acc, input, secret);
    h := MergeAccsLoop(acc, secret, SECRET_MERGEACCS_START, Mul64(Len64(|input|), PRIME64_1));
  }

  /** XXH3_hashLong_128b_internal */
  method HashLong128(input: seq<u8>, secret: seq<u8>) returns (h: U128)
    requires |input| > MIDSIZE_MAX && |secret| >= SECRET_SIZE_MIN
    ensures h == Merge128(LongAcc(input, secret), secret, |input|)
  {
    hide InitAcc, LongAcc, MergeAccs;
    var acc := new u64[8](i requires 0 <= i < 8 => InitAcc()[i]);
    assert acc[..] == InitAcc();
    HashLongLoop(acc, input, secret);
    var low := MergeAccsLoop(acc, secret, SECRET_MERGEACCS_START, Mul64(Len64(|input|), PRIME64_1));
    var high := MergeAccsLoop(acc, secret, |secret| - 64 - SECRET_MERGEACCS_START,
                              Complement64(Mul64(Len64(|input|), PRIME64_2)));
    h := U128(low, high);
  }

  /** The dispatch on length that XXH3_64bits_internal makes below its long branch. */
  method ShortBranch64(input: seq<u8>, secret: seq<u8>, seed: u64) returns (h: u64)
    requires |input| <= MIDSIZE_MAX && |secret| >= SECRET_SIZE_MIN
    ensures h == ShortHash64(input, secret, seed)
  {
    if |input| <= 16 { return Len0To16Hash64(input, secret, seed); }
    if |input| <= 128 { return Len17To128Hash64(input, secret, seed); }
    h := Len129To240Loop64(input, secret, seed);
  }

  method ShortBranch128(input: seq<u8>, secret: seq<u8>, seed: u64) returns (h: U128)
    requires |input| <= MIDSIZE_MAX && |secret| >= SECRET_SIZE_MIN
    ensures h == ShortHash128(input, secret, seed)
  {
    if |input| <= 16 { return Len0To16Hash128(input, secret, seed); }
    if |input| <= 128 { return Len17To128Hash128(input, secret, seed); }
    h := Len129To240Loop128(input, secret, seed);
  }

  method Seeded(seed: u64) returns (secret: seq<u8>)
    ensures secret == DerivedSecret(seed)
  {
    var custom := new u8[192];
    InitCustomSecretScalar(custom, seed);
    secret := custom[..];
  }

  /** XXH3_64bits, XXH3_64bits_withSecret and XXH3_64bits_withSeed. */
  method OneShot64(key: Key, input: seq<u8>) returns (h: u64)
    requires key.Valid()
    ensures h == Hash64(key, input)
  {
    hide KSecret, ShortHash64, LongAcc, Merge64, DerivedSecret;
    if |input| <= MIDSIZE_MAX {
      h := ShortBranch64(input, key.ShortSecret(), key.ShortSeed());
      return;
    }
    match key
    case Plain => h := HashLong64(input, KSecret());
    case WithSecret(secret) => h := HashLong64(input, secret);
    case WithSeed(seed) =>
      if seed == 0 {
        h := HashLong64(input, KSecret());
      } else {
        var secret := Seeded(seed);
        h := HashLong64(input, secret);
      }
  }

  /** XXH3_128bits, XXH3_128bits_withSecret and XXH3_128bits_withSeed. */
  method OneShot128(key: Key, input: seq<u8>) returns (h: U128)
    requires key.Valid()
    ensures h == Hash128(key, input)
  {
    hide KSecret, ShortHash128, LongAcc, Merge128, DerivedSecret;
    if |input| <= MIDSIZE_MAX {
      h := ShortBranch128(input, key.ShortSecret(), key.ShortSeed());
      return;
    }
    match key
    case Plain => h := HashLong128(input, KSecret());
    case WithSecret(secret) => h := HashLong128(input, secret);
    case WithSeed(seed) =>
      if seed == 0 {
        h := HashLong128(input, KSecret());
      } else {
        var secret := Seeded(seed);
        h := HashLong128(input, secret);
      }
  }
}
