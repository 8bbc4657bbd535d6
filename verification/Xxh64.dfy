/** XXH64, one-shot and streaming, against a fold over 32-byte stripes as in the public XXH64
    algorithm description, steps 1 to 6. */
module Xxh64 {
  import opened Words
  import opened Chunks
  import opened Xxh3Kernel
  import opened Xxh3Short

  datatype Lanes = Lanes(v1: u64, v2: u64, v3: u64, v4: u64)

  function Round(acc: u64, input: u64): u64
  {
    Mul64(Rotl64(Add64(acc, Mul64(input, PRIME64_2)), 31), PRIME64_1)
  }

  function MergeRound(acc: u64, val: u64): u64
  {
    Add64(Mul64(Xor64(acc, Round(0, val)), PRIME64_1), PRIME64_4)
  }

  function InitLanes(seed: u64): Lanes
  {
    Lanes(Add64(Add64(seed, PRIME64_1), PRIME64_2), Add64(seed, PRIME64_2), seed, Sub64(seed, PRIME64_1))
  }

  /** Each lane takes one word of a 32-byte stripe at position p. */
  function RoundStripe(l: Lanes, b: seq<u8>, p: nat): Lanes
    requires p + 32 <= |b|
  {
    Lanes(Round(l.v1, At64(b, p)), Round(l.v2, At64(b, p + 8)),
          Round(l.v3, At64(b, p + 16)), Round(l.v4, At64(b, p + 24)))
  }

  function Converge(l: Lanes): u64
  {
    var h := Add64(Add64(Add64(Rotl64(l.v1, 1), Rotl64(l.v2, 7)), Rotl64(l.v3, 12)), Rotl64(l.v4, 18));
    MergeRound(MergeRound(MergeRound(MergeRound(h, l.v1), l.v2), l.v3), l.v4)
  }

  // ---- the reference ------------------------------------------------------------------

  function FoldStripes(seed: u64, data: seq<u8>, n: nat): Lanes
    requires 32 * n <= |data|
  {
    if n == 0 then InitLanes(seed) else RoundStripe(FoldStripes(seed, data, n - 1), data, 32 * (n - 1))
  }

  function Mix8(h: u64, word: u64): u64
  {
    Add64(Mul64(Rotl64(Xor64(h, Round(0, word)), 27), PRIME64_1), PRIME64_4)
  }

  function Mix4(h: u64, word: u32): u64
  {
    Add64(Mul64(Rotl64(Xor64(h, Mul64(word, PRIME64_1)), 23), PRIME64_2), PRIME64_3)
  }

  function Mix1(h: u64, byte: u8): u64
  {
    Mul64(Rotl64(Xor64(h, Mul64(byte, PRIME64_5)), 11), PRIME64_1)
  }

  /** The rest after the last whole stripe, in pieces of eight, four and one bytes. */
  function ConsumeRest(h: u64, rest: seq<u8>): u64
    decreases |rest|
  {
    if |rest| >= 8 then ConsumeRest(Mix8(h, At64(rest, 0)), rest[8..])
    else if |rest| >= 4 then ConsumeRest(Mix4(h, At32(rest, 0)), rest[4..])
    else if |rest| > 0 then ConsumeRest(Mix1(h, rest[0]), rest[1..])
    else h
  }

  function Hash(data: seq<u8>, seed: u64): u64
  {
    var n := |data| / 32;
    var h := if n > 0 then Converge(FoldStripes(seed, data, n)) else Add64(seed, PRIME64_5);
    Xxh64Avalanche(ConsumeRest(Add64(h, |data| % 0x1_0000_0000_0000_0000), data[32 * n..]))
  }

  lemma {:induction false} FoldOfPrefix(seed: u64, data: seq<u8>, more: seq<u8>, n: nat)
    requires 32 * n <= |data|
    ensures FoldStripes(seed, data + more, n) == FoldStripes(seed, data, n)
  {
    hide RoundStripe;
    if n > 0 {
      FoldOfPrefix(seed, data, more, n - 1);
      StripeOfSlice(FoldStripes(seed, data, n - 1), data + more, data, 32 * (n - 1), 32 * (n - 1));
    }
  }

  /** A stripe is what its 32 bytes are, wherever they are stored. */
  lemma StripeOfSlice(l: Lanes, a: seq<u8>, b: seq<u8>, p: nat, q: nat)
    requires p + 32 <= |a| && q + 32 <= |b| && a[p..p + 32] == b[q..q + 32]
    ensures RoundStripe(l, a, p) == RoundStripe(l, b, q)
  {
    hide Round;
    WordOfSlice(a, b, p, q, 0); WordOfSlice(a, b, p, q, 8);
    WordOfSlice(a, b, p, q, 16); WordOfSlice(a, b, p, q, 24);
  }

  lemma SliceOfSlice<T>(a: seq<T>, p: nat, n: nat, k: nat, m: nat)
    requires p + n <= |a| && k + m <= n
    ensures a[p..p + n][k..k + m] == a[p + k..][..m]
  {
    var s, t := a[p..p + n][k..k + m], a[p + k..][..m];
    assert forall i :: 0 <= i < m ==> s[i] == a[p + k + i] == t[i];
    assert s == t;
  }

  lemma WordOfSlice(a: seq<u8>, b: seq<u8>, p: nat, q: nat, k: nat)
    requires k <= 24 && p + 32 <= |a| && q + 32 <= |b| && a[p..p + 32] == b[q..q + 32]
    ensures At64(a, p + k) == At64(b, q + k)
  {
    hide ReadLE;
    SliceOfSlice(a, p, 32, k, 8);
    SliceOfSlice(b, q, 32, k, 8);
    assert a[p + k..][..8] == b[q + k..][..8];
    assert ReadLE64(a[p + k..]) == ReadLE64(b[q + k..]);
  }

  // ---- finalization -------------------------------------------------------------------

  /** XXH64_finalize: `len` may be the whole length, of which only the low five bits count. */
  method Finalize(h: u64, bytes: seq<u8>, length: nat) returns (h64: u64)
    requires length % 32 <= |bytes|
    ensures h64 == Xxh64Avalanche(ConsumeRest(h, bytes[..length % 32]))
  {
    hide Mix8, Mix4, Mix1, Xxh64Avalanche, At64, At32;
    var len := length % 32;
    var p := 0;
    ghost var rest := bytes[..len];
    h64 := h;
    while len >= 8
      invariant p + len == |rest|
      invariant ConsumeRest(h64, rest[p..]) == ConsumeRest(h, rest)
    {
      assert rest[p..][8..] == rest[p + 8..];
      WordInRest(bytes, |rest|, p);
      h64 := Mix8(h64, At64(bytes, p));
      p := p + 8;
      len := len - 8;
    }
    if len >= 4 {
      assert rest[p..][4..] == rest[p + 4..];
      HalfWordInRest(bytes, |rest|, p);
      h64 := Mix4(h64, At32(bytes, p));
      p := p + 4;
      len := len - 4;
    }
    while len > 0
      invariant p + len == |rest| && len < 4
      invariant ConsumeRest(h64, rest[p..]) == ConsumeRest(h, rest)
    {
      assert rest[p..][1..] == rest[p + 1..];
      h64 := Mix1(h64, bytes[p]);
      p := p + 1;
      len := len - 1;
    }
    h64 := Xxh64Avalanche(h64);
  }

  lemma WordInRest(bytes: seq<u8>, n: nat, p: nat)
    requires n <= |bytes| && p + 8 <= n
    ensures At64(bytes[..n][p..], 0) == At64(bytes, p)
  {
    hide ReadLE;
    assert bytes[..n][p..][0..][..8] == bytes[p..][..8];
  }

  lemma HalfWordInRest(bytes: seq<u8>, n: nat, p: nat)
    requires n <= |bytes| && p + 4 <= n
    ensures At32(bytes[..n][p..], 0) == At32(bytes, p)
  {
    hide ReadLE;
    assert bytes[..n][p..][0..][..4] == bytes[p..][..4];
  }

  // ---- one shot -----------------------------------------------------------------------

  /** XXH64_endian_align */
  method OneShot(input: seq<u8>, seed: u64) returns (h: u64)
    ensures h == Hash(input, seed)
  {
    hide RoundStripe, InitLanes, Converge, Xxh64Avalanche, ConsumeRest;
    var len := |input|;
    var p := 0;
    var h64 := Add64(seed, PRIME64_5);
    if len >= 32 {
      var v := RoundStripe(InitLanes(seed), input, 0);
      p := 32;
      ghost var n := 1;
      assert FoldStripes(seed, input, 0) == InitLanes(seed);
      while p <= len - 32
        invariant p == 32 * n <= len
        invariant v == FoldStripes(seed, input, n)
      {
        v := RoundStripe(v, input, p);
        p := p + 32;
        n := n + 1;
      }
      h64 := Converge(v);
      assert n == len / 32;
    }
    h64 := Add64(h64, len % 0x1_0000_0000_0000_0000);
    assert input[p..][..len % 32] == input[32 * (len / 32)..];
    h := Finalize(h64, input[p..], len);
  }

  // ---- streaming ----------------------------------------------------------------------

  class State {
    var lanes: Lanes
    const mem64: array<u8>
    var memsize: nat
    var totalLen: u64
    ghost var seed: u64
    ghost var fed: seq<u8>
    ghost var stripes: nat

    /** The lanes are the fold of all whole stripes, the memory holds the rest. */
    ghost predicate Valid()
      reads this, mem64
    {
      && mem64.Length == 32 && memsize < 32
      && |fed| == 32 * stripes + memsize
      && totalLen == |fed| % 0x1_0000_0000_0000_0000
      && lanes == FoldStripes(seed, fed, stripes)
      && mem64[..memsize] == fed[32 * stripes..]
    }

    /** XXH64_reset of a new state. */
    constructor (seed: u64)
      ensures Valid() && fresh(mem64) && this.seed == seed && fed == []
    {
      mem64 := new u8[32];
      lanes := InitLanes(seed);
      memsize, totalLen := 0, 0;
      this.seed, fed, stripes := seed, [], 0;
    }

    /** XXH64_update */
    method Update(input: seq<u8>)
      requires Valid()
      modifies this`lanes, this`memsize, this`totalLen, this`fed, this`stripes, mem64
      ensures Valid() && fed == old(fed) + input
    {
      hide RoundStripe, FoldStripes;
      var len := |input|;
      totalLen := Add64(totalLen, len % 0x1_0000_0000_0000_0000);
      LengthSum(|fed|, len);
      FoldOfPrefix(seed, fed, input, stripes);
      if memsize + len < 32 {
        BufferMore(input);
        return;
      }
      var p := 0;
      if memsize > 0 {
        p := CompleteStripe(input);
      }
      p := ConsumeInput(input, p);
      forall k | 0 <= k < len - p { mem64[k] := input[p + k]; }
      memsize := len - p;
      assert mem64[..memsize] == input[p..] == (fed + input)[32 * stripes..];
      fed := fed + input;
    }

    /** The part of XXH64_update for input that does not complete a stripe. */
    method BufferMore(input: seq<u8>)
      requires mem64.Length == 32 && memsize + |input| < 32 && |fed| == 32 * stripes + memsize
      requires mem64[..memsize] == fed[32 * stripes..]
      modifies this`memsize, this`fed, mem64
      ensures fed == old(fed) + input && memsize == old(memsize) + |input|
      ensures 32 * stripes <= |fed| && mem64[..memsize] == fed[32 * stripes..]
    {
      ghost var front := mem64[..memsize];
      forall k | 0 <= k < |input| { mem64[memsize + k] := input[k]; }
      memsize := memsize + |input|;
      assert mem64[..memsize] == front + input == (fed + input)[32 * stripes..];
      fed := fed + input;
    }

    /** The part of XXH64_update that fills the memory and consumes it. */
    method CompleteStripe(input: seq<u8>) returns (p: nat)
      requires mem64.Length == 32 && 0 < memsize < 32 <= memsize + |input|
      requires |fed| == 32 * stripes + memsize && mem64[..memsize] == fed[32 * stripes..]
      requires lanes == FoldStripes(seed, fed + input, stripes)
      modifies this`lanes, this`memsize, this`stripes, mem64
      ensures p == 32 - old(memsize) && memsize == 0 && stripes == old(stripes) + 1
      ensures lanes == FoldStripes(seed, fed + input, stripes)
    {
      hide RoundStripe;
      p := 32 - memsize;
      ghost var front := mem64[..memsize];
      forall k | 0 <= k < p { mem64[memsize + k] := input[k]; }
      assert mem64[..] == front + input[..p] == (fed + input)[32 * stripes..32 * stripes + 32];
      StripeOfSlice(lanes, mem64[..], fed + input, 0, 32 * stripes);
      lanes := RoundStripe(lanes, mem64[..], 0);
      memsize := 0;
      stripes := stripes + 1;
    }

    /** The loop of XXH64_update over whole stripes of input. */
    method ConsumeInput(input: seq<u8>, start: nat) returns (p: nat)
      requires start <= |input| && |fed| + start == 32 * stripes
      requires lanes == FoldStripes(seed, fed + input, stripes)
      modifies this`lanes, this`stripes
      ensures start <= p <= |input| < p + 32 && |fed| + p == 32 * stripes
      ensures lanes == FoldStripes(seed, fed + input, stripes)
    {
      hide RoundStripe;
      p := start;
      if p + 32 <= |input| {
        var limit := |input| - 32;
        var v := lanes;
        while p <= limit
          invariant start <= p <= |input| && |fed| + p == 32 * stripes
          invariant v == FoldStripes(seed, fed + input, stripes)
        {
          assert input[p..p + 32] == (fed + input)[32 * stripes..32 * stripes + 32];
          StripeOfSlice(v, input, fed + input, p, 32 * stripes);
          v := RoundStripe(v, input, p);
          p := p + 32;
          stripes := stripes + 1;
        }
        lanes := v;
      }
    }

    /** XXH64_digest.  A one-shot length is below 2^64; a longer stream keeps the hash of its bytes
        until its 64-bit length counter has wrapped to less than one stripe. */
    method Digest() returns (h: u64)
      requires Valid()
      ensures |fed| < TWO64 || totalLen >= 32 ==> h == Hash(fed, seed)
    {
      hide FoldStripes, Converge, ConsumeRest, Xxh64Avalanche;
      var h64: u64;
      if totalLen >= 32 {
        h64 := Converge(lanes);
      } else {
        assert |fed| < TWO64 ==> stripes == 0;
        ghost var l := FoldStripes(seed, fed, 0);
        NoStripes(seed, fed);
        h64 := Add64(lanes.v3, PRIME64_5);
      }
      h64 := Add64(h64, totalLen);
      MemsizeOfLength(|fed|, stripes, memsize);
      assert mem64[..][..memsize] == fed[32 * stripes..];
      h := Finalize(h64, mem64[..], totalLen);
    }
  }

  lemma NoStripes(seed: u64, data: seq<u8>)
    ensures FoldStripes(seed, data, 0) == InitLanes(seed) && InitLanes(seed).v3 == seed
  {
  }

  lemma LengthSum(a: nat, b: nat)
    ensures Add64(a % 0x1_0000_0000_0000_0000, b % 0x1_0000_0000_0000_0000)
         == (a + b) % 0x1_0000_0000_0000_0000
  {
  }

  /** The wrapped length still tells how much is in the memory. */
  lemma MemsizeOfLength(len: nat, stripes: nat, memsize: nat)
    requires len == 32 * stripes + memsize && memsize < 32
    ensures len % 0x1_0000_0000_0000_0000 % 32 == memsize && len / 32 == stripes
  {
    var k, r := len / 0x1_0000_0000_0000_0000, len % 0x1_0000_0000_0000_0000;
    DivUnique(len, 32, k * 0x800_0000_0000_0000 + r / 32, r % 32);
    DivUnique(len, 32, stripes, memsize);
  }

  /** A run: however the input is cut, each digest on the way is the one-shot hash of the bytes fed
      so far, and digesting does not disturb later digests. */
  method DigestEveryPrefix(seed: u64, chunks: seq<seq<u8>>) returns (hs: seq<u64>)
    requires |Flatten(chunks)| < TWO64
    ensures |hs| == |chunks|
    ensures forall i :: 0 <= i < |chunks| ==> hs[i] == Hash(Flatten(chunks[..i + 1]), seed)
  {
    hide State.Valid, Hash;
    var state := new State(seed);
    hs := [];
    var n := 0;
    while n < |chunks|
      invariant 0 <= n <= |chunks| && |hs| == n
      invariant state.Valid() && fresh(state) && fresh(state.mem64)
      invariant state.seed == seed && state.fed == Flatten(chunks[..n])
      invariant forall i :: 0 <= i < n ==> hs[i] == Hash(Flatten(chunks[..i + 1]), seed)
    {
      assert chunks[..n + 1][..n] == chunks[..n];
      FlattenPrefix(chunks, n + 1);
      state.Update(chunks[n]);
      var h := state.Digest();
      hs := hs + [h];
      n := n + 1;
    }
  }
}
