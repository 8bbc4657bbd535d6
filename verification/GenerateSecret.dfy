/** XXH3_generateSecret: a full secret from a custom seed of any length. */
module GenerateSecret {
  import opened Words
  import opened Mult128
  import opened Xxh3Short
  import opened Xxh3Secret
  import opened Xxh3OneShot
  import opened Xxh3Inverse
  import opened Canonical

  const SEGMENT_SIZE := 16
  const NB_SEGMENTS := 12
  const SEEDS_SIZE := 96

  /** The custom seed repeated, or cut off, to n bytes. */
  function Repeated(seed: seq<u8>, n: nat): (r: seq<u8>)
    requires seed != []
    ensures |r| == n
  {
    seq(n, j requires 0 <= j < n => seed[j % |seed|])
  }

  /** The bytes of a 128-bit hash, most significant first. */
  function Digest(h: U128): (d: seq<u8>)
    ensures |d| == 16
  {
    BigEndianBytes(h.high) + BigEndianBytes(h.low)
  }

  function Scrambler(seed: seq<u8>): (r: seq<u8>)
    ensures |r| == 16
  {
    Digest(Hash128(WithSeed(0), seed))
  }

  /** Segment 0 is the scrambler; each other segment is the hash of the scrambler, seeded by the
      word of the repeated seed at its position plus its number. */
  function Segment(seed: seq<u8>, k: nat): (r: seq<u8>)
    requires seed != [] && k < NB_SEGMENTS
    ensures |r| == 16
  {
    if k == 0 then Scrambler(seed)
    else Digest(Hash128(WithSeed(Add64(At64(Repeated(seed, SEEDS_SIZE), 8 * k), k)), Scrambler(seed)))
  }

  function Segments(seed: seq<u8>, n: nat): (r: seq<u8>)
    requires seed != [] && n <= NB_SEGMENTS
    ensures |r| == 16 * n
  {
    if n == 0 then [] else Segments(seed, n - 1) + Segment(seed, n - 1)
  }

  function GeneratedSecret(seed: seq<u8>): (secret: seq<u8>)
    ensures |secret| == 192
  {
    if seed == [] then KSecret() else Segments(seed, NB_SEGMENTS)
  }

  lemma {:induction false} SegmentsAt(seed: seq<u8>, n: nat, k: nat)
    requires seed != [] && k < n <= NB_SEGMENTS
    ensures Segments(seed, n)[16 * k..16 * k + 16] == Segment(seed, k)
  {
    hide Segment, Scrambler;
    if k < n - 1 {
      SegmentsAt(seed, n - 1, k);
      assert Segments(seed, n)[16 * k..16 * k + 16] == Segments(seed, n - 1)[16 * k..16 * k + 16];
    }
  }

  /** Custom seeds with the same eight bytes, taken cyclically, at the position of a segment have the same segment
      there if and only if they have the same 128-bit hash. */
  lemma SegmentDependsOn(seed: seq<u8>, other: seq<u8>, k: nat)
    requires seed != [] && other != [] && k < NB_SEGMENTS
    requires forall j :: 8 * k <= j < 8 * k + 8 ==> seed[j % |seed|] == other[j % |other|]
    ensures GeneratedSecret(seed)[16 * k..16 * k + 16] == GeneratedSecret(other)[16 * k..16 * k + 16]
        <==> Hash128(WithSeed(0), seed) == Hash128(WithSeed(0), other)
  {
    hide Segments, Segment, KSecret, Repeated, Hash128;
    SegmentsAt(seed, NB_SEGMENTS, k);
    SegmentsAt(other, NB_SEGMENTS, k);
    SegmentOfScrambler(seed, other, k);
    DigestExactly(Hash128(WithSeed(0), seed), Hash128(WithSeed(0), other));
  }

  lemma SegmentOfScrambler(seed: seq<u8>, other: seq<u8>, k: nat)
    requires seed != [] && other != [] && k < NB_SEGMENTS
    requires forall j :: 8 * k <= j < 8 * k + 8 ==> seed[j % |seed|] == other[j % |other|]
    ensures Segment(seed, k) == Segment(other, k) <==> Scrambler(seed) == Scrambler(other)
  {
    hide Hash128, Digest, ReadLE64, Scrambler;
    if k > 0 {
      var a, b := Repeated(seed, SEEDS_SIZE), Repeated(other, SEEDS_SIZE);
      assert a[8 * k..8 * k + 8] == b[8 * k..8 * k + 8];
      WordAt(a, 8 * k); WordAt(b, 8 * k);
      var key := WithSeed(Add64(At64(a, 8 * k), k));
      DigestExactly(Hash128(key, Scrambler(seed)), Hash128(key, Scrambler(other)));
      ShortInputsDoNotCollide(key, Scrambler(seed), Scrambler(other));
    }
  }

  /** Segments made by the same scrambler are the same if and only if their words of the custom seed are, each
      increased by the number of its segment.  So within one secret a repeated word does not give the same
      segment twice. */
  lemma SegmentsExactly(seed: seq<u8>, other: seq<u8>, j: nat, k: nat)
    requires seed != [] && other != [] && 0 < j < NB_SEGMENTS && 0 < k < NB_SEGMENTS
    requires Hash128(WithSeed(0), seed) == Hash128(WithSeed(0), other)
    ensures GeneratedSecret(seed)[16 * j..16 * j + 16] == GeneratedSecret(other)[16 * k..16 * k + 16]
        <==> Add64(At64(Repeated(seed, SEEDS_SIZE), 8 * j), j) == Add64(At64(Repeated(other, SEEDS_SIZE), 8 * k), k)
  {
    hide Segments, KSecret, Repeated, Hash128, Digest, At64, Add64;
    SegmentsAt(seed, NB_SEGMENTS, j);
    SegmentsAt(other, NB_SEGMENTS, k);
    var x := Add64(At64(Repeated(seed, SEEDS_SIZE), 8 * j), j);
    var y := Add64(At64(Repeated(other, SEEDS_SIZE), 8 * k), k);
    DigestExactly(Hash128(WithSeed(x), Scrambler(seed)), Hash128(WithSeed(y), Scrambler(seed)));
    SeedsDoNotCollide(Scrambler(seed), x, y);
  }

  lemma DigestExactly(g: U128, h: U128)
    ensures Digest(g) == Digest(h) <==> g == h
  {
    hide BigEndianBytes;
    CanonicalIsPortable(LittleEndian, g); CanonicalRoundTrip(LittleEndian, LittleEndian, g);
    CanonicalIsPortable(LittleEndian, h); CanonicalRoundTrip(LittleEndian, LittleEndian, h);
  }

  lemma WordAt(b: seq<u8>, off: nat)
    requires off + 8 <= |b|
    ensures At64(b, off) == ReadLE64(b[off..off + 8])
  {
    assert b[off..][..8] == b[off..off + 8][..8];
  }

  /** Any generated secret is long enough to key a hash, and the one for no seed is the default. */
  lemma GeneratedSecretIsUsable(seed: seq<u8>, input: seq<u8>)
    ensures WithSecret(GeneratedSecret(seed)).Valid()
    ensures Hash64(WithSecret(GeneratedSecret([])), input) == Hash64(Plain, input)
    ensures Hash128(WithSecret(GeneratedSecret([])), input) == Hash128(Plain, input)
  {
    EquivalentKeys(input);
    hide KSecret, Segments, Hash64, Hash128;
  }

  // ---- filling the seed array ---------------------------------------------------------

  lemma ModOfSum(filled: nat, i: nat, n: nat)
    requires n > 0 && filled % n == 0
    ensures (filled + i) % n == i % n
  {
    var q, p := filled / n, i / n;
    assert filled + i == n * (q + p) + i % n;
    DivUnique(filled + i, n, q + p, i % n);
  }

  lemma ModOfTwice(filled: nat, n: nat)
    requires n > 0 && filled % n == 0
    ensures (filled + filled) % n == 0
  {
    ModOfSum(filled, filled, n);
  }

  /** The start of the array is copied to the end of what is filled, twice as much each time. */
  method FillSeeds(seeds: array<u8>, customSeed: seq<u8>)
    requires seeds.Length == SEEDS_SIZE && customSeed != []
    modifies seeds
    ensures seeds[..] == Repeated(customSeed, SEEDS_SIZE)
  {
    var size := |customSeed|;
    var toFill := if size < SEEDS_SIZE then size else SEEDS_SIZE;
    var filled := toFill;
    Store(seeds, 0, customSeed[..toFill]);
    FirstCopy(customSeed, toFill);
    assert seeds[..filled] == customSeed[..toFill];
    while filled < SEEDS_SIZE
      invariant 0 < filled <= SEEDS_SIZE && (filled < SEEDS_SIZE ==> filled % size == 0)
      invariant seeds[..filled] == Repeated(customSeed, filled)
      decreases SEEDS_SIZE - filled
    {
      toFill := if filled < SEEDS_SIZE - filled then filled else SEEDS_SIZE - filled;
      CopyRepeats(customSeed, filled, toFill);
      ModOfTwice(filled, size);
      Store(seeds, filled, seeds[..toFill]);
      assert seeds[..filled + toFill] == Repeated(customSeed, filled) + Repeated(customSeed, filled)[..toFill];
      filled := filled + toFill;
    }
    assert seeds[..] == seeds[..SEEDS_SIZE];
  }

  lemma FirstCopy(seed: seq<u8>, n: nat)
    requires n <= |seed| && seed != []
    ensures seed[..n] == Repeated(seed, n)
    ensures |seed| % |seed| == 0
  {
    forall j | 0 <= j < n ensures j % |seed| == j { DivUnique(j, |seed|, 0, j); }
    DivUnique(|seed|, |seed|, 1, 0);
  }

  lemma CopyRepeats(seed: seq<u8>, filled: nat, n: nat)
    requires seed != [] && filled % |seed| == 0 && n <= filled
    ensures Repeated(seed, filled) + Repeated(seed, filled)[..n] == Repeated(seed, filled + n)
  {
    forall i | 0 <= i < n ensures (filled + i) % |seed| == i % |seed| { ModOfSum(filled, i, |seed|); }
    var whole := Repeated(seed, filled + n);
    forall j | 0 <= j < filled + n
      ensures (Repeated(seed, filled) + Repeated(seed, filled)[..n])[j] == whole[j]
    {
      if j >= filled { assert (filled + (j - filled)) % |seed| == (j - filled) % |seed|; }
    }
  }

  // ---- generating the secret ----------------------------------------------------------

  method CanonicalHash(m: Machine, seed: u64, input: seq<u8>) returns (c: seq<u8>)
    ensures c == Digest(Hash128(WithSeed(seed), input))
  {
    var h := OneShot128(WithSeed(seed), input);
    CanonicalIsPortable(m, h);
    c := CanonicalFromHash(m, h);
  }

  /** XXH3_generateSecret, on machine m. */
  method Generate(m: Machine, secretBuffer: array<u8>, customSeed: seq<u8>)
    requires secretBuffer.Length >= 192
    modifies secretBuffer
    ensures secretBuffer[..192] == GeneratedSecret(customSeed)
    ensures secretBuffer[192..] == old(secretBuffer[192..])
  {
    hide KSecret, Hash128, Digest, At64, Repeated;
    if customSeed == [] {
      Store(secretBuffer, 0, KSecret());
      return;
    }
    var scrambler := CanonicalHash(m, 0, customSeed);
    var seeds := new u8[SEEDS_SIZE];
    FillSeeds(seeds, customSeed);
    Store(secretBuffer, 0, scrambler);
    var segnb := 1;
    assert secretBuffer[..16] == Segments(customSeed, 1) by { assert Segments(customSeed, 0) == []; }
    while segnb < NB_SEGMENTS
      invariant 1 <= segnb <= NB_SEGMENTS
      invariant seeds[..] == Repeated(customSeed, SEEDS_SIZE)
      invariant secretBuffer[..16 * segnb] == Segments(customSeed, segnb)
      invariant secretBuffer[192..] == old(secretBuffer[192..])
    {
      var segment := CanonicalHash(m, Add64(At64(seeds[..], 8 * segnb), segnb), scrambler);
      Store(secretBuffer, SEGMENT_SIZE * segnb, segment);
      segnb := segnb + 1;
    }
  }
}
