/** XXH32, one-shot and streaming, against a fold over 16-byte stripes as in the public XXH32
    algorithm description, steps 1 to 7.  Lengths are not bounded: the stream keeps only the
    length modulo 2^32 and one flag. */
module Xxh32 {
  import opened Words
  import opened Chunks
  import opened Xxh3Kernel
  import opened Xxh3Short
  import opened Xxh64

  const PRIME32_4: u32 := 0x27D4EB2F
  const PRIME32_5: u32 := 0x165667B1

  datatype Lanes32 = Lanes32(v1: u32, v2: u32, v3: u32, v4: u32)

  function Round32(acc: u32, input: u32): u32
  {
    Mul32(Rotl32(Add32(acc, Mul32(input, PRIME32_2)), 13), PRIME32_1)
  }

  function Avalanche32(h: u32): u32
  {
    var a := Mul32(XorShift32(h, 15), PRIME32_2);
    var b := Mul32(XorShift32(a, 13), PRIME32_3);
    XorShift32(b, 16)
  }

  function InitLanes32(seed: u32): Lanes32
  {
    Lanes32(Add32(Add32(seed, PRIME32_1), PRIME32_2), Add32(seed, PRIME32_2), seed, Sub32(seed, PRIME32_1))
  }

  function RoundStripe32(l: Lanes32, b: seq<u8>, p: nat): Lanes32
    requires p + 16 <= |b|
  {
    Lanes32(Round32(l.v1, At32(b, p)), Round32(l.v2, At32(b, p + 4)),
            Round32(l.v3, At32(b, p + 8)), Round32(l.v4, At32(b, p + 12)))
  }

  function Converge32(l: Lanes32): u32
  {
    Add32(Add32(Add32(Rotl32(l.v1, 1), Rotl32(l.v2, 7)), Rotl32(l.v3, 12)), Rotl32(l.v4, 18))
  }

  // ---- the reference ------------------------------------------------------------------

  function FoldStripes32(seed: u32, data: seq<u8>, n: nat): Lanes32
    requires 16 * n <= |data|
  {
    if n == 0 then InitLanes32(seed) else RoundStripe32(FoldStripes32(seed, data, n - 1), data, 16 * (n - 1))
  }

  /** XXH_PROCESS4 */
  function Process4(h: u32, word: u32): u32
  {
    Mul32(Rotl32(Add32(h, Mul32(word, PRIME32_3)), 17), PRIME32_4)
  }

  /** XXH_PROCESS1 */
  function Process1(h: u32, byte: u8): u32
  {
    Mul32(Rotl32(Add32(h, Mul32(byte, PRIME32_5)), 11), PRIME32_1)
  }

  function ConsumeRest32(h: u32, rest: seq<u8>): u32
    decreases |rest|
  {
    if |rest| >= 4 then ConsumeRest32(Process4(h, At32(rest, 0)), rest[4..])
    else if |rest| > 0 then ConsumeRest32(Process1(h, rest[0]), rest[1..])
    else h
  }

  function Hash32(data: seq<u8>, seed: u32): u32
  {
    var n := |data| / 16;
    var h := if n > 0 then Converge32(FoldStripes32(seed, data, n)) else Add32(seed, PRIME32_5);
    Avalanche32(ConsumeRest32(Add32(h, |data| % 0x1_0000_0000), data[16 * n..]))
  }

  lemma {:induction false} FoldOfPrefix32(seed: u32, data: seq<u8>, more: seq<u8>, n: nat)
    requires 16 * n <= |data|
    ensures FoldStripes32(seed, data + more, n) == FoldStripes32(seed, data, n)
  {
    hide RoundStripe32;
    if n > 0 {
      FoldOfPrefix32(seed, data, more, n - 1);
      StripeOfSlice32(FoldStripes32(seed, data, n - 1), data + more, data, 16 * (n - 1), 16 * (n - 1));
    }
  }

  lemma StripeOfSlice32(l: Lanes32, a: seq<u8>, b: seq<u8>, p: nat, q: nat)
    requires p + 16 <= |a| && q + 16 <= |b| && a[p..p + 16] == b[q..q + 16]
    ensures RoundStripe32(l, a, p) == RoundStripe32(l, b, q)
  {
    hide Round32;
    WordOfSlice32(a, b, p, q, 0); WordOfSlice32(a, b, p, q, 4);
    WordOfSlice32(a, b, p, q, 8); WordOfSlice32(a, b, p, q, 12);
  }

  lemma WordOfSlice32(a: seq<u8>, b: seq<u8>, p: nat, q: nat, k: nat)
    requires k <= 12 && p + 16 <= |a| && q + 16 <= |b| && a[p..p + 16] == b[q..q + 16]
    ensures At32(a, p + k) == At32(b, q + k)
  {
    hide ReadLE;
    SliceOfSlice(a, p, 16, k, 4);
    SliceOfSlice(b, q, 16, k, 4);
    assert a[p + k..][..4] == b[q + k..][..4];
    assert ReadLE32(a[p + k..]) == ReadLE32(b[q + k..]);
  }

  // ---- finalization, rolled and unrolled ----------------------------------------------

  /** XXH32_finalize with XXH_REROLL. */
  method FinalizeRolled(h: u32, bytes: seq<u8>, length: nat) returns (h32: u32)
    requires length % 16 <= |bytes|
    ensures h32 == Avalanche32(ConsumeRest32(h, bytes[..length % 16]))
  {
    hide Process4, Process1, Avalanche32, At32;
    var len := length % 16;
    var p := 0;
    ghost var rest := bytes[..len];
    h32 := h;
    while len >= 4
      invariant p + len == |rest|
      invariant ConsumeRest32(h32, rest[p..]) == ConsumeRest32(h, rest)
    {
      assert rest[p..][4..] == rest[p + 4..];
      HalfWordInRest(bytes, |rest|, p);
      h32 := Process4(h32, At32(bytes, p));
      p := p + 4;
      len := len - 4;
    }
    while len > 0
      invariant p + len == |rest| && len < 4
      invariant ConsumeRest32(h32, rest[p..]) == ConsumeRest32(h, rest)
    {
      assert rest[p..][1..] == rest[p + 1..];
      h32 := Process1(h32, bytes[p]);
      p := p + 1;
      len := len - 1;
    }
    h32 := Avalanche32(h32);
  }

  /** n times XXH_PROCESS4 from position p, as a chain of cases falls through. */
  function Chain4(h: u32, bytes: seq<u8>, p: nat, n: nat): u32
    requires p + 4 * n <= |bytes|
    decreases n
  {
    if n == 0 then h else Chain4(Process4(h, At32(bytes, p)), bytes, p + 4, n - 1)
  }

  lemma {:induction false} ChainConsumes(h: u32, bytes: seq<u8>, p: nat, n: nat, end: nat)
    requires p + 4 * n <= end <= |bytes|
    ensures ConsumeRest32(Chain4(h, bytes, p, n), bytes[p + 4 * n..end]) == ConsumeRest32(h, bytes[p..end])
    decreases n
  {
    hide Process4, At32;
    if n > 0 {
      ChainConsumes(Process4(h, At32(bytes, p)), bytes, p + 4, n - 1, end);
      assert bytes[p..end][4..] == bytes[p + 4..end];
      assert bytes[..end][p..] == bytes[p..end];
      HalfWordInRest(bytes, end, p);
    }
  }

  /** XXH32_finalize as a switch whose cases fall through: 12, 8, 4; then 13, 9, 5; then 14, 10, 6;
      then 15, 11, 7, 3, 2, 1, 0. */
  method FinalizeSwitch(h: u32, bytes: seq<u8>, length: nat) returns (h32: u32)
    requires length % 16 <= |bytes|
    ensures h32 == Avalanche32(ConsumeRest32(h, bytes[..length % 16]))
  {
    hide Process4, Process1, Avalanche32, At32;
    var len := length % 16;
    ChainConsumes(h, bytes, 0, len / 4, len);
    assert bytes[0..len] == bytes[..len];
    h32 := h;
    var p := 0;
    if len == 12 || len == 8 || len == 4 {
      if len == 12 { h32 := Process4(h32, At32(bytes, p)); p := p + 4; }
      if len >= 8 { h32 := Process4(h32, At32(bytes, p)); p := p + 4; }
      h32 := Process4(h32, At32(bytes, p));
      return Avalanche32(h32);
    }
    if len == 13 || len == 9 || len == 5 {
      if len == 13 { h32 := Process4(h32, At32(bytes, p)); p := p + 4; }
      if len >= 9 { h32 := Process4(h32, At32(bytes, p)); p := p + 4; }
      h32 := Process4(h32, At32(bytes, p)); p := p + 4;
      Singles(h32, bytes, p, 1);
      h32 := Process1(h32, bytes[p]);
      return Avalanche32(h32);
    }
    if len == 14 || len == 10 || len == 6 {
      if len == 14 { h32 := Process4(h32, At32(bytes, p)); p := p + 4; }
      if len >= 10 { h32 := Process4(h32, At32(bytes, p)); p := p + 4; }
      h32 := Process4(h32, At32(bytes, p)); p := p + 4;
      Singles(h32, bytes, p, 2);
      h32 := Process1(h32, bytes[p]);
      h32 := Process1(h32, bytes[p + 1]);
      return Avalanche32(h32);
    }
    if len == 15 { h32 := Process4(h32, At32(bytes, p)); p := p + 4; }
    if len >= 11 { h32 := Process4(h32, At32(bytes, p)); p := p + 4; }
    if len >= 7 { h32 := Process4(h32, At32(bytes, p)); p := p + 4; }
    Singles(h32, bytes, p, len - p);
    if len - p == 3 { h32 := Process1(h32, bytes[p]); p := p + 1; }
    if len - p >= 2 { h32 := Process1(h32, bytes[p]); p := p + 1; }
    if len - p >= 1 { h32 := Process1(h32, bytes[p]); p := p + 1; }
    return Avalanche32(h32);
  }

  /** Up to three single bytes. */
  lemma Singles(h: u32, bytes: seq<u8>, p: nat, n: nat)
    requires n <= 3 && p + n <= |bytes|
    ensures ConsumeRest32(h, bytes[p..p + n])
         == if n == 0 then h
            else if n == 1 then Process1(h, bytes[p])
            else if n == 2 then Process1(Process1(h, bytes[p]), bytes[p + 1])
            else Process1(Process1(Process1(h, bytes[p]), bytes[p + 1]), bytes[p + 2])
  {
    hide Process1, Process4, At32;
    if n > 0 {
      assert bytes[p..p + n][1..] == bytes[p + 1..p + n];
      SinglesStep(Process1(h, bytes[p]), bytes, p + 1, n - 1);
    }
  }

  lemma SinglesStep(h: u32, bytes: seq<u8>, p: nat, n: nat)
    requires n <= 2 && p + n <= |bytes|
    ensures ConsumeRest32(h, bytes[p..p + n])
         == if n == 0 then h
            else if n == 1 then Process1(h, bytes[p])
            else Process1(Process1(h, bytes[p]), bytes[p + 1])
  {
    hide Process1, Process4, At32;
    if n > 0 {
      var h1 := Process1(h, bytes[p]);
      assert bytes[p..p + n][1..] == bytes[p + 1..p + n];
      if n == 2 {
        assert bytes[p + 1..p + 2][1..] == [];
        assert ConsumeRest32(h1, bytes[p + 1..p + 2]) == ConsumeRest32(Process1(h1, bytes[p + 1]), []);
      }
    }
  }

  // ---- one shot -----------------------------------------------------------------------

  /** XXH32_endian_align: the loop runs while fewer than 15 bytes short of the end. */
  method OneShot32(input: seq<u8>, seed: u32) returns (h: u32)
    ensures h == Hash32(input, seed)
  {
    hide RoundStripe32, InitLanes32, Converge32, Avalanche32, ConsumeRest32;
    var len := |input|;
    var p := 0;
    var h32 := Add32(seed, PRIME32_5);
    if len >= 16 {
      var limit := len - 15;
      var v := RoundStripe32(InitLanes32(seed), input, 0);
      p := 16;
      ghost var n := 1;
      assert FoldStripes32(seed, input, 0) == InitLanes32(seed);
      while p < limit
        invariant p == 16 * n <= len
        invariant v == FoldStripes32(seed, input, n)
      {
        v := RoundStripe32(v, input, p);
        p := p + 16;
        n := n + 1;
      }
      h32 := Converge32(v);
      assert n == len / 16;
    }
    h32 := Add32(h32, len % 0x1_0000_0000);
    assert input[p..][..len % 16] == input[16 * (len / 16)..];
    h := FinalizeSwitch(h32, input[p..], len % 16);
  }

  // ---- streaming ----------------------------------------------------------------------

  class State32 {
    var lanes: Lanes32
    const mem32: array<u8>
    var memsize: nat
    var totalLen32: u32
    var largeLen: bool
    ghost var seed: u32
    ghost var fed: seq<u8>
    ghost var stripes: nat

    /** The length counter has the true length modulo 2^32, and the flag tells for good whether
        the true length ever reached a whole stripe. */
    ghost predicate Valid()
      reads this, mem32
    {
      && mem32.Length == 16 && memsize < 16
      && |fed| == 16 * stripes + memsize
      && totalLen32 == |fed| % 0x1_0000_0000
      && (largeLen <==> |fed| >= 16)
      && lanes == FoldStripes32(seed, fed, stripes)
      && mem32[..memsize] == fed[16 * stripes..]
    }

    /** XXH32_reset of a new state. */
    constructor (seed: u32)
      ensures Valid() && fresh(mem32) && this.seed == seed && fed == []
    {
      mem32 := new u8[16];
      lanes := InitLanes32(seed);
      memsize, totalLen32, largeLen := 0, 0, false;
      this.seed, fed, stripes := seed, [], 0;
    }

    /** XXH32_update */
    method Update(input: seq<u8>)
      requires Valid()
      modifies this`lanes, this`memsize, this`totalLen32, this`largeLen, this`fed, this`stripes, mem32
      ensures Valid() && fed == old(fed) + input
    {
      hide RoundStripe32, FoldStripes32, Add32;
      var len := |input|;
      CountLength(len);
      FoldOfPrefix32(seed, fed, input, stripes);
      if memsize + len < 16 {
        BufferMore(input);
        return;
      }
      var p := 0;
      if memsize > 0 {
        p := CompleteStripe(input);
      }
      p := ConsumeInput(input, p);
      forall k | 0 <= k < len - p { mem32[k] := input[p + k]; }
      memsize := len - p;
      assert mem32[..memsize] == input[p..] == (fed + input)[16 * stripes..];
      fed := fed + input;
    }

    /** The length bookkeeping of XXH32_update. */
    method CountLength(len: nat)
      requires totalLen32 == |fed| % 0x1_0000_0000 && (largeLen <==> |fed| >= 16)
      modifies this`totalLen32, this`largeLen
      ensures totalLen32 == (|fed| + len) % 0x1_0000_0000 && (largeLen <==> |fed| + len >= 16)
    {
      LengthCounter(|fed|, len);
      totalLen32 := Add32(totalLen32, len % 0x1_0000_0000);
      largeLen := largeLen || len >= 16 || totalLen32 >= 16;
    }

    method BufferMore(input: seq<u8>)
      requires mem32.Length == 16 && memsize + |input| < 16 && |fed| == 16 * stripes + memsize
      requires mem32[..memsize] == fed[16 * stripes..]
      modifies this`memsize, this`fed, mem32
      ensures fed == old(fed) + input && memsize == old(memsize) + |input|
      ensures 16 * stripes <= |fed| && mem32[..memsize] == fed[16 * stripes..]
    {
      ghost var front := mem32[..memsize];
      forall k | 0 <= k < |input| { mem32[memsize + k] := input[k]; }
      memsize := memsize + |input|;
      assert mem32[..memsize] == front + input == (fed + input)[16 * stripes..];
      fed := fed + input;
    }

    method CompleteStripe(input: seq<u8>) returns (p: nat)
      requires mem32.Length == 16 && 0 < memsize < 16 <= memsize + |input|
      requires |fed| == 16 * stripes + memsize && mem32[..memsize] == fed[16 * stripes..]
      requires lanes == FoldStripes32(seed, fed + input, stripes)
      modifies this`lanes, this`memsize, this`stripes, mem32
      ensures p == 16 - old(memsize) && memsize == 0 && stripes == old(stripes) + 1
      ensures lanes == FoldStripes32(seed, fed + input, stripes)
    {
      hide RoundStripe32;
      p := 16 - memsize;
      ghost var front := mem32[..memsize];
      forall k | 0 <= k < p { mem32[memsize + k] := input[k]; }
      assert mem32[..] == front + input[..p] == (fed + input)[16 * stripes..16 * stripes + 16];
      StripeOfSlice32(lanes, mem32[..], fed + input, 0, 16 * stripes);
      lanes := RoundStripe32(lanes, mem32[..], 0);
      memsize := 0;
      stripes := stripes + 1;
    }

    method ConsumeInput(input: seq<u8>, start: nat) returns (p: nat)
      requires start <= |input| && |fed| + start == 16 * stripes
      requires lanes == FoldStripes32(seed, fed + input, stripes)
      modifies this`lanes, this`stripes
      ensures start <= p <= |input| < p + 16 && |fed| + p == 16 * stripes
      ensures lanes == FoldStripes32(seed, fed + input, stripes)
    {
      hide RoundStripe32;
      p := start;
      if p + 16 <= |input| {
        var limit := |input| - 16;
        var v := lanes;
        while p <= limit
          invariant start <= p <= |input| && |fed| + p == 16 * stripes
          invariant v == FoldStripes32(seed, fed + input, stripes)
        {
          assert input[p..p + 16] == (fed + input)[16 * stripes..16 * stripes + 16];
          StripeOfSlice32(v, input, fed + input, p, 16 * stripes);
          v := RoundStripe32(v, input, p);
          p := p + 16;
          stripes := stripes + 1;
        }
        lanes := v;
      }
    }

    /** XXH32_digest, right for streams of every length. */
    method Digest() returns (h: u32)
      requires Valid()
      ensures h == Hash32(fed, seed)
    {
      hide FoldStripes32, Converge32, ConsumeRest32, Avalanche32;
      var h32: u32;
      if largeLen {
        h32 := Converge32(lanes);
      } else {
        NoStripes32(seed, fed);
        h32 := Add32(lanes.v3, PRIME32_5);
      }
      h32 := Add32(h32, totalLen32);
      assert |fed| / 16 == stripes;
      assert mem32[..][..memsize] == fed[16 * stripes..];
      h := FinalizeSwitch(h32, mem32[..], memsize);
    }
  }

  lemma NoStripes32(seed: u32, data: seq<u8>)
    ensures FoldStripes32(seed, data, 0) == InitLanes32(seed) && InitLanes32(seed).v3 == seed
  {
  }

  /** The counter wraps with the true length, and a length that just reached 16 shows in the
      addend or in the counter, which cannot wrap in the same step. */
  lemma LengthCounter(before: nat, len: nat)
    ensures var counter := Add32(before % 0x1_0000_0000, len % 0x1_0000_0000);
            && counter == (before + len) % 0x1_0000_0000
            && (before >= 16 || len >= 16 || counter >= 16 <==> before + len >= 16)
  {
    if before < 16 && len < 16 {
      assert before % 0x1_0000_0000 == before && len % 0x1_0000_0000 == len;
    }
  }

  /** A run, of any total length: however the input is cut, each digest on the way is the one-shot
      hash of the bytes fed so far, and digesting does not disturb later digests. */
  method DigestEveryPrefix32(seed: u32, chunks: seq<seq<u8>>) returns (hs: seq<u32>)
    ensures |hs| == |chunks|
    ensures forall i :: 0 <= i < |chunks| ==> hs[i] == Hash32(Flatten(chunks[..i + 1]), seed)
  {
    hide State32.Valid, Hash32;
    var state := new State32(seed);
    hs := [];
    var n := 0;
    while n < |chunks|
      invariant 0 <= n <= |chunks| && |hs| == n
      invariant state.Valid() && fresh(state) && fresh(state.mem32)
      invariant state.seed == seed && state.fed == Flatten(chunks[..n])
      invariant forall i :: 0 <= i < n ==> hs[i] == Hash32(Flatten(chunks[..i + 1]), seed)
    {
      assert chunks[..n + 1][..n] == chunks[..n];
      state.Update(chunks[n]);
      var h := state.Digest();
      hs := hs + [h];
      n := n + 1;
    }
  }
}
