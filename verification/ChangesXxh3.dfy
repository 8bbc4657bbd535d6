/** What a change of the input changes in XXH3 beyond 16 bytes.  The mixes multiply, and a product may lose
    what it is given; these are the ways in which a change is certain to be seen. */
module ChangesXxh3 {
  import opened Words
  import opened Mult128
  import opened Xxh3Kernel
  import opened Xxh3Short
  import opened Xxh3Long
  import opened Xxh3Inverse
  import opened ChangesXxh

  // ---- one mix ------------------------------------------------------------------------

  /** A product with one is the other factor. */
  lemma FoldByOne(a: u64)
    ensures Mul128Fold64(a, 1) == a && Mul128Fold64(1, a) == a
  {
    hide Xor64;
    XorNothing(a);
  }

  lemma XorNothing(a: u64)
    ensures Xor64(a, 0) == a
  {
    XorZero(a);
  }

  lemma FoldChanges64(a: u64, b: u64, c: u64)
    requires c == 1
    ensures Mul128Fold64(a, c) == Mul128Fold64(b, c) <==> a == b
    ensures Mul128Fold64(c, a) == Mul128Fold64(c, b) <==> a == b
  {
    FoldByOne(a); FoldByOne(b);
    hide Mul128Fold64;
  }

  lemma XorExactly(a: u64, b: u64, c: u64)
    ensures (Xor64(a, c) == Xor64(b, c) <==> a == b) && (Xor64(c, a) == Xor64(c, b) <==> a == b)
  {
    hide Xor64;
    if Xor64(a, c) == Xor64(b, c) || Xor64(c, a) == Xor64(c, b) { Xor64Injective(a, b, c); }
  }

  lemma AddExactly(a: u64, b: u64, c: u64)
    ensures (Add64(a, c) == Add64(b, c) <==> a == b) && (Add64(c, a) == Add64(c, b) <==> a == b)
  {
    hide Add64;
    if Add64(a, c) == Add64(b, c) || Add64(c, a) == Add64(c, b) { Add64Injective(a, b, c); }
  }

  lemma WordsChange(a: seq<u8>, b: seq<u8>, i: nat, p: nat)
    requires OneByte(a, b, i) && p + 8 <= |a|
    ensures |a| == |b| && (At64(a, p) == At64(b, p) <==> !(p <= i < p + 8))
  {
    SameLength(a, b, i);
    SliceChanges(a, b, i, p, 8);
    hide OneByte, At64;
    WordExactly(a, b, p, p);
  }

  predicate Within(i: nat, p: nat) { p <= i < p + 16 }

  /** In the piece at p, the word with byte i is multiplied by a word that the secret has made one. */
  predicate PartnerIsOne(input: seq<u8>, p: nat, secret: seq<u8>, s: nat, seed: u64, i: nat)
    requires p + 16 <= |input| && s + 16 <= |secret|
  {
    if i < p + 8 then Xor64(At64(input, p + 8), Sub64(At64(secret, s + 8), seed)) == 1
    else Xor64(At64(input, p), Add64(At64(secret, s), seed)) == 1
  }

  lemma Mix16Keeps(a: seq<u8>, b: seq<u8>, i: nat, p: nat, secret: seq<u8>, s: nat, seed: u64)
    requires OneByte(a, b, i) && p + 16 <= |a| && s + 16 <= |secret| && !Within(i, p)
    ensures |a| == |b| && Mix16B(a, p, secret, s, seed) == Mix16B(b, p, secret, s, seed)
  {
    hide OneByte, At64, Mul128Fold64;
    WordsChange(a, b, i, p); WordsChange(a, b, i, p + 8);
  }

  lemma Mix16Changes(a: seq<u8>, b: seq<u8>, i: nat, p: nat, secret: seq<u8>, s: nat, seed: u64)
    requires OneByte(a, b, i) && p + 16 <= |a| && s + 16 <= |secret| && Within(i, p)
    requires PartnerIsOne(a, p, secret, s, seed, i)
    ensures |a| == |b| && Mix16B(a, p, secret, s, seed) != Mix16B(b, p, secret, s, seed)
  {
    hide OneByte, At64, Mul128Fold64, Xor64, Add64, Sub64;
    WordsChange(a, b, i, p); WordsChange(a, b, i, p + 8);
    var v, w := Add64(At64(secret, s), seed), Sub64(At64(secret, s + 8), seed);
    XorExactly(At64(a, p), At64(b, p), v); XorExactly(At64(a, p + 8), At64(b, p + 8), w);
    if i < p + 8 {
      FoldChanges64(Xor64(At64(a, p), v), Xor64(At64(b, p), v), Xor64(At64(a, p + 8), w));
    } else {
      FoldChanges64(Xor64(At64(a, p + 8), w), Xor64(At64(b, p + 8), w), Xor64(At64(a, p), v));
    }
  }

  /** A mix of two pieces loses nothing of the accumulator, ... */
  lemma Mix32Keeps(x: U128, y: U128, a: seq<u8>, b: seq<u8>, i: nat, p: nat, q: nat,
                   secret: seq<u8>, s: nat, seed: u64)
    requires OneByte(a, b, i) && p + 16 <= |a| && q + 16 <= |a| && s + 32 <= |secret| && !Within(i, p) && !Within(i, q)
    ensures |a| == |b| && (Mix32B(x, a, p, q, secret, s, seed) == Mix32B(y, b, p, q, secret, s, seed) <==> x == y)
  {
    hide OneByte, At64, Mix16B, Xor64, Add64;
    WordsChange(a, b, i, p); WordsChange(a, b, i, p + 8); WordsChange(a, b, i, q); WordsChange(a, b, i, q + 8);
    Mix16Keeps(a, b, i, p, secret, s, seed); Mix16Keeps(a, b, i, q, secret, s + 16, seed);
    var m, n := Mix16B(a, p, secret, s, seed), Mix16B(a, q, secret, s + 16, seed);
    XorExactly(Add64(x.low, m), Add64(y.low, m), Add64(At64(a, q), At64(a, q + 8)));
    XorExactly(Add64(x.high, n), Add64(y.high, n), Add64(At64(a, p), At64(a, p + 8)));
    AddExactly(x.low, y.low, m); AddExactly(x.high, y.high, n);
  }

  /** ... and it sees a byte that is in one of its pieces, whatever the products do: the sum of the two words of
      that piece goes to the half that has the product of the other. */
  lemma Mix32Changes(x: U128, a: seq<u8>, b: seq<u8>, i: nat, p: nat, q: nat, secret: seq<u8>, s: nat, seed: u64)
    requires OneByte(a, b, i) && p + 16 <= |a| && q + 16 <= |a| && s + 32 <= |secret| && Within(i, p) != Within(i, q)
    ensures |a| == |b| && Mix32B(x, a, p, q, secret, s, seed) != Mix32B(x, b, p, q, secret, s, seed)
  {
    hide OneByte, At64, Mix16B, Xor64, Add64;
    if Within(i, p) {
      Mix16Keeps(a, b, i, q, secret, s + 16, seed);
      SumChanges(a, b, i, p);
      XorExactly(Add64(At64(a, p), At64(a, p + 8)), Add64(At64(b, p), At64(b, p + 8)),
                 Add64(x.high, Mix16B(a, q, secret, s + 16, seed)));
    } else {
      Mix16Keeps(a, b, i, p, secret, s, seed);
      SumChanges(a, b, i, q);
      XorExactly(Add64(At64(a, q), At64(a, q + 8)), Add64(At64(b, q), At64(b, q + 8)),
                 Add64(x.low, Mix16B(a, p, secret, s, seed)));
    }
  }

  lemma SumChanges(a: seq<u8>, b: seq<u8>, i: nat, p: nat)
    requires OneByte(a, b, i) && p + 16 <= |a| && Within(i, p)
    ensures |a| == |b| && Add64(At64(a, p), At64(a, p + 8)) != Add64(At64(b, p), At64(b, p + 8))
  {
    hide OneByte, At64, Add64;
    WordsChange(a, b, i, p); WordsChange(a, b, i, p + 8);
    if i < p + 8 { AddExactly(At64(a, p), At64(b, p), At64(a, p + 8)); }
    else { AddExactly(At64(a, p + 8), At64(b, p + 8), At64(a, p)); }
  }

  // ---- 17 to 128 bytes ----------------------------------------------------------------

  /** How many pairs of pieces are mixed: as many as it takes to read everything from both ends. */
  function Pairs(len: nat): nat
    requires 16 < len <= 128
  {
    (len - 1) / 32 + 1
  }

  /** Byte i is in one 16-byte piece only.  With 32, 64, 96 or 128 bytes this is every byte. */
  predicate ReadOnce(len: nat, i: nat)
    requires 16 < len <= 128
  {
    !(len - 16 * Pairs(len) <= i < 16 * Pairs(len))
  }

  /** The accumulator after the pairs n - 1 down to k. */
  function PairsAcc(input: seq<u8>, secret: seq<u8>, seed: u64, k: nat, n: nat): U128
    requires 16 < |input| <= 128 && k <= n <= Pairs(|input|) && |secret| >= SECRET_SIZE_MIN
    decreases n - k
  {
    if k == n then U128(Mul64(|input|, PRIME64_1), 0)
    else MixEnds128(PairsAcc(input, secret, seed, k + 1, n), input, k, secret, seed)
  }

  lemma AccIsPairs(input: seq<u8>, secret: seq<u8>, seed: u64)
    requires 16 < |input| <= 128 && |secret| >= SECRET_SIZE_MIN
    ensures Acc17To128(input, secret, seed) == PairsAcc(input, secret, seed, 0, Pairs(|input|))
  {
    hide MixEnds128, Mul64;
    var n := Pairs(|input|);
    var base := PairsAcc(input, secret, seed, n, n);
    if n > 1 {
      var acc := PairsAcc(input, secret, seed, 2, n);
      assert PairsAcc(input, secret, seed, 1, n) == MixEnds128(acc, input, 1, secret, seed);
    }
    if n > 2 {
      var acc := PairsAcc(input, secret, seed, 3, n);
      assert PairsAcc(input, secret, seed, 2, n) == MixEnds128(acc, input, 2, secret, seed);
    }
    if n > 3 { assert PairsAcc(input, secret, seed, 3, n) == MixEnds128(base, input, 3, secret, seed); }
  }

  /** The number of the pair that reads byte i. */
  function PairOf(len: nat, i: nat): nat
    requires 16 < len <= 128 && i < len
  {
    if i < 16 * Pairs(len) then i / 16 else (len - 1 - i) / 16
  }

  lemma PairReads(len: nat, i: nat, k: nat)
    requires 16 < len <= 128 && i < len && ReadOnce(len, i) && k < Pairs(len)
    ensures k < 4 && 32 * k < len && 16 * (k + 1) <= len
    ensures k == PairOf(len, i) <==> Within(i, 16 * k) != Within(i, len - 16 * (k + 1))
    ensures k != PairOf(len, i) <==> !Within(i, 16 * k) && !Within(i, len - 16 * (k + 1))
  {
  }

  lemma EndsChange128(x: U128, y: U128, a: seq<u8>, b: seq<u8>, i: nat, k: nat, secret: seq<u8>, seed: u64)
    requires OneByte(a, b, i) && 16 < |a| <= 128 && |secret| >= SECRET_SIZE_MIN
    requires i < |a| && ReadOnce(|a|, i) && k < Pairs(|a|)
    ensures |a| == |b| && k < 4 && 32 * k < |a|
    ensures k == PairOf(|a|, i) ==> MixEnds128(x, a, k, secret, seed) != MixEnds128(x, b, k, secret, seed)
    ensures k != PairOf(|a|, i) ==> (MixEnds128(x, a, k, secret, seed) == MixEnds128(y, b, k, secret, seed) <==> x == y)
  {
    hide OneByte, Mix32B, ReadOnce, PairOf, Within, Pairs;
    SameLength(a, b, i);
    PairReads(|a|, i, k);
    var q := |a| - 16 * (k + 1);
    if k == PairOf(|a|, i) {
      Mix32Changes(x, a, b, i, 16 * k, q, secret, 32 * k, seed);
    } else {
      Mix32Keeps(x, y, a, b, i, 16 * k, q, secret, 32 * k, seed);
    }
  }

  lemma PairsAccUnfolds(input: seq<u8>, secret: seq<u8>, seed: u64, k: nat)
    requires 16 < |input| <= 128 && k < Pairs(|input|) && |secret| >= SECRET_SIZE_MIN
    ensures k < 4 && 32 * k < |input|
    ensures var n := Pairs(|input|);
            PairsAcc(input, secret, seed, k, n)
            == MixEnds128(PairsAcc(input, secret, seed, k + 1, n), input, k, secret, seed)
  {
    hide MixEnds128, Mul64;
  }

  lemma PairsAccStarts(input: seq<u8>, secret: seq<u8>, seed: u64)
    requires 16 < |input| <= 128 && |secret| >= SECRET_SIZE_MIN
    ensures var n := Pairs(|input|); PairsAcc(input, secret, seed, n, n) == U128(Mul64(|input|, PRIME64_1), 0)
  {
    hide Mul64;
  }

  lemma {:induction false} PairsAccChanges(a: seq<u8>, b: seq<u8>, i: nat, secret: seq<u8>, seed: u64, k: nat)
    requires OneByte(a, b, i) && 16 < |a| <= 128 && k <= Pairs(|a|) && |secret| >= SECRET_SIZE_MIN
    requires i < |a| && ReadOnce(|a|, i)
    ensures |a| == |b|
    ensures var n := Pairs(|a|);
            PairsAcc(a, secret, seed, k, n) == PairsAcc(b, secret, seed, k, n) <==> PairOf(|a|, i) < k
    decreases Pairs(|a|) - k
  {
    hide OneByte, MixEnds128, ReadOnce, PairOf, Pairs, PairsAcc, Mul64;
    SameLength(a, b, i);
    var n := Pairs(|a|);
    if k < n {
      PairsAccChanges(a, b, i, secret, seed, k + 1);
      PairsAccUnfolds(a, secret, seed, k); PairsAccUnfolds(b, secret, seed, k);
      EndsChange128(PairsAcc(a, secret, seed, k + 1, n), PairsAcc(b, secret, seed, k + 1, n), a, b, i, k, secret, seed);
    } else {
      PairIsBelow(|a|, i);
      PairsAccStarts(a, secret, seed); PairsAccStarts(b, secret, seed);
    }
  }

  lemma PairIsBelow(len: nat, i: nat)
    requires 16 < len <= 128 && i < len
    ensures PairOf(len, i) < Pairs(len)
  {
  }

  /** Every byte that is read once counts: changing it changes the accumulator of the 128-bit hash. */
  lemma OneByteChangesAcc(a: seq<u8>, b: seq<u8>, i: nat, secret: seq<u8>, seed: u64)
    requires OneByte(a, b, i) && 16 < |a| <= 128 && ReadOnce(|a|, i) && |secret| >= SECRET_SIZE_MIN
    ensures |a| == |b| && Acc17To128(a, secret, seed) != Acc17To128(b, secret, seed)
  {
    SameLength(a, b, i);
    hide OneByte, Acc17To128, PairsAcc, ReadOnce;
    AccIsPairs(a, secret, seed); AccIsPairs(b, secret, seed);
    PairsAccChanges(a, b, i, secret, seed, 0);
  }

  /** Where the piece with byte i starts, and the place of its secret. */
  function PieceOf(len: nat, i: nat): nat
    requires 16 < len <= 128 && i < len
  {
    if i < 16 * Pairs(len) then 16 * PairOf(len, i) else len - 16 * (PairOf(len, i) + 1)
  }

  function SecretOf(len: nat, i: nat): nat
    requires 16 < len <= 128 && i < len
  {
    if i < 16 * Pairs(len) then 32 * PairOf(len, i) else 32 * PairOf(len, i) + 16
  }

  lemma PieceReads(len: nat, i: nat)
    requires 16 < len <= 128 && i < len && ReadOnce(len, i)
    ensures PairOf(len, i) < Pairs(len) && PieceOf(len, i) + 16 <= len && SecretOf(len, i) <= 112
    ensures Within(i, PieceOf(len, i))
    ensures var k := PairOf(len, i);
            (PieceOf(len, i) == 16 * k && SecretOf(len, i) == 32 * k && !Within(i, len - 16 * (k + 1)))
            || (PieceOf(len, i) == len - 16 * (k + 1) && SecretOf(len, i) == 32 * k + 16 && !Within(i, 16 * k))
  {
  }

  function PairsSum(input: seq<u8>, secret: seq<u8>, seed: u64, k: nat, n: nat): u64
    requires 16 < |input| <= 128 && k <= n <= Pairs(|input|) && |secret| >= SECRET_SIZE_MIN
    decreases n - k
  {
    if k == n then Mul64(|input|, PRIME64_1)
    else MixEnds(PairsSum(input, secret, seed, k + 1, n), input, k, secret, seed)
  }

  lemma SumIsPairs(input: seq<u8>, secret: seq<u8>, seed: u64)
    requires 16 < |input| <= 128 && |secret| >= SECRET_SIZE_MIN
    ensures Sum17To128(input, secret, seed) == PairsSum(input, secret, seed, 0, Pairs(|input|))
  {
    hide MixEnds, Mul64;
    var n := Pairs(|input|);
    var base := PairsSum(input, secret, seed, n, n);
    if n > 1 {
      var acc := PairsSum(input, secret, seed, 2, n);
      assert PairsSum(input, secret, seed, 1, n) == MixEnds(acc, input, 1, secret, seed);
    }
    if n > 2 {
      var acc := PairsSum(input, secret, seed, 3, n);
      assert PairsSum(input, secret, seed, 2, n) == MixEnds(acc, input, 2, secret, seed);
    }
    if n > 3 { assert PairsSum(input, secret, seed, 3, n) == MixEnds(base, input, 3, secret, seed); }
  }

  lemma PairsSumUnfolds(input: seq<u8>, secret: seq<u8>, seed: u64, k: nat)
    requires 16 < |input| <= 128 && k < Pairs(|input|) && |secret| >= SECRET_SIZE_MIN
    ensures k < 4 && 32 * k < |input|
    ensures var n := Pairs(|input|);
            PairsSum(input, secret, seed, k, n)
            == MixEnds(PairsSum(input, secret, seed, k + 1, n), input, k, secret, seed)
  {
    hide MixEnds, Mul64;
  }

  lemma PairsSumStarts(input: seq<u8>, secret: seq<u8>, seed: u64)
    requires 16 < |input| <= 128 && |secret| >= SECRET_SIZE_MIN
    ensures var n := Pairs(|input|); PairsSum(input, secret, seed, n, n) == Mul64(|input|, PRIME64_1)
  {
    hide Mul64;
  }

  ghost predicate SeenByMix(input: seq<u8>, i: nat, secret: seq<u8>, seed: u64)
    requires 16 < |input| <= 128 && |secret| >= SECRET_SIZE_MIN
  {
    && i < |input| && ReadOnce(|input|, i) && PieceOf(|input|, i) + 16 <= |input| && SecretOf(|input|, i) <= 112
    && PartnerIsOne(input, PieceOf(|input|, i), secret, SecretOf(|input|, i), seed, i)
  }

  lemma EndsChange(x: u64, y: u64, a: seq<u8>, b: seq<u8>, i: nat, k: nat, secret: seq<u8>, seed: u64)
    requires OneByte(a, b, i) && 16 < |a| <= 128 && |secret| >= SECRET_SIZE_MIN
    requires SeenByMix(a, i, secret, seed) && k < Pairs(|a|)
    ensures |a| == |b| && k < 4 && 32 * k < |a|
    ensures k == PairOf(|a|, i) ==> MixEnds(x, a, k, secret, seed) != MixEnds(x, b, k, secret, seed)
    ensures k != PairOf(|a|, i) ==> (MixEnds(x, a, k, secret, seed) == MixEnds(y, b, k, secret, seed) <==> x == y)
  {
    hide OneByte, Mix16B, ReadOnce, PairOf, PieceOf, SecretOf, Within, Pairs, Add64, PartnerIsOne;
    SameLength(a, b, i);
    PairReads(|a|, i, k);
    PieceReads(|a|, i);
    var p, q, s := 16 * k, |a| - 16 * (k + 1), 32 * k;
    var m, n := Mix16B(a, p, secret, s, seed), Mix16B(a, q, secret, s + 16, seed);
    var m', n' := Mix16B(b, p, secret, s, seed), Mix16B(b, q, secret, s + 16, seed);
    AddExactly(Add64(x, m), Add64(y, m), n); AddExactly(x, y, m);
    AddExactly(Add64(x, m), Add64(x, m'), n); AddExactly(m, m', x); AddExactly(n, n', Add64(x, m));
    if k == PairOf(|a|, i) {
      if PieceOf(|a|, i) == p && SecretOf(|a|, i) == s && !Within(i, q) {
        Mix16Changes(a, b, i, p, secret, s, seed);
        Mix16Keeps(a, b, i, q, secret, s + 16, seed);
      } else {
        Mix16Changes(a, b, i, q, secret, s + 16, seed);
        Mix16Keeps(a, b, i, p, secret, s, seed);
      }
    } else {
      Mix16Keeps(a, b, i, p, secret, s, seed);
      Mix16Keeps(a, b, i, q, secret, s + 16, seed);
    }
  }

  lemma {:induction false} PairsSumChanges(a: seq<u8>, b: seq<u8>, i: nat, secret: seq<u8>, seed: u64, k: nat)
    requires OneByte(a, b, i) && 16 < |a| <= 128 && k <= Pairs(|a|) && |secret| >= SECRET_SIZE_MIN
    requires i < |a| && SeenByMix(a, i, secret, seed)
    ensures |a| == |b|
    ensures var n := Pairs(|a|);
            PairsSum(a, secret, seed, k, n) == PairsSum(b, secret, seed, k, n) <==> PairOf(|a|, i) < k
    decreases Pairs(|a|) - k
  {
    hide OneByte, MixEnds, SeenByMix, PairOf, Pairs, PairsSum, Mul64;
    SameLength(a, b, i);
    var n := Pairs(|a|);
    if k < n {
      PairsSumChanges(a, b, i, secret, seed, k + 1);
      PairsSumUnfolds(a, secret, seed, k); PairsSumUnfolds(b, secret, seed, k);
      EndsChange(PairsSum(a, secret, seed, k + 1, n), PairsSum(b, secret, seed, k + 1, n), a, b, i, k, secret, seed);
    } else {
      PairIsBelow(|a|, i);
      PairsSumStarts(a, secret, seed); PairsSumStarts(b, secret, seed);
    }
  }

  lemma AvalancheExactly(h: u64, g: u64)
    ensures Avalanche(h) == Avalanche(g) <==> h == g
  {
    hide Avalanche, UnAvalanche;
    AvalancheInverse(h); AvalancheInverse(g);
  }

  /** In 64 bits a byte that is read once counts if its word is multiplied by one. */
  lemma OneByteChanges17To128(a: seq<u8>, b: seq<u8>, i: nat, secret: seq<u8>, seed: u64)
    requires OneByte(a, b, i) && 16 < |a| <= 128 && |secret| >= SECRET_SIZE_MIN && SeenByMix(a, i, secret, seed)
    ensures |a| == |b| && Len17To128Hash64(a, secret, seed) != Len17To128Hash64(b, secret, seed)
  {
    SameLength(a, b, i);
    hide OneByte, Sum17To128, PairsSum, SeenByMix, Avalanche;
    SumIsPairs(a, secret, seed); SumIsPairs(b, secret, seed);
    PairsSumChanges(a, b, i, secret, seed, 0);
    AvalancheExactly(Sum17To128(a, secret, seed), Sum17To128(b, secret, seed));
  }

  // ---- 129 to 240 bytes ---------------------------------------------------------------

  /** A run of 128-bit mixes reads each of its bytes once. */
  lemma {:induction false} RunChanges128(x: U128, y: U128, a: seq<u8>, b: seq<u8>, i: nat, start: nat,
                                         secret: seq<u8>, s: nat, seed: u64, n: nat)
    requires OneByte(a, b, i) && start + 32 * n <= |a| && s + 32 * n <= |secret|
    ensures |a| == |b|
    ensures if start <= i < start + 32 * n
            then MixRun128(x, a, start, secret, s, seed, n) != MixRun128(x, b, start, secret, s, seed, n)
            else MixRun128(x, a, start, secret, s, seed, n) == MixRun128(y, b, start, secret, s, seed, n) <==> x == y
    decreases n
  {
    hide OneByte, Mix32B;
    SameLength(a, b, i);
    if n > 0 {
      var p, t := start + 32 * (n - 1), s + 32 * (n - 1);
      if start <= i < start + 32 * n {
        RunChanges128(x, x, a, b, i, start, secret, s, seed, n - 1);
        var v, w := MixRun128(x, a, start, secret, s, seed, n - 1), MixRun128(x, b, start, secret, s, seed, n - 1);
        if p <= i { Mix32Changes(v, a, b, i, p, p + 16, secret, t, seed); }
        else { Mix32Keeps(v, w, a, b, i, p, p + 16, secret, t, seed); }
      } else {
        RunChanges128(x, y, a, b, i, start, secret, s, seed, n - 1);
        Mix32Keeps(MixRun128(x, a, start, secret, s, seed, n - 1), MixRun128(y, b, start, secret, s, seed, n - 1),
                   a, b, i, p, p + 16, secret, t, seed);
      }
    }
  }

  /** Byte i is in one 16-byte piece only.  With 160, 192 or 224 bytes these are all but the last 32. */
  predicate ReadOnceMid(len: nat, i: nat) { i < len - 32 || 32 * (len / 32) <= i }

  lemma Avalanche128Exactly(x: U128, y: U128)
    ensures Avalanche128(x) == Avalanche128(y) <==> x == y
  {
    hide Avalanche;
    AvalancheExactly(x.low, y.low); AvalancheExactly(x.high, y.high);
  }

  lemma OneByteChangesMidAcc(a: seq<u8>, b: seq<u8>, i: nat, secret: seq<u8>, seed: u64)
    requires OneByte(a, b, i) && 128 < |a| <= MIDSIZE_MAX && |secret| >= SECRET_SIZE_MIN && ReadOnceMid(|a|, i)
    ensures |a| == |b| && Acc129To240(a, secret, seed) != Acc129To240(b, secret, seed)
  {
    hide OneByte, MixRun128, Mix32B, Mul64, Avalanche128;
    SameLength(a, b, i);
    var n, x := |a| / 32 - 4, U128(Mul64(|a|, PRIME64_1), 0);
    var v, w := MixRun128(x, a, 0, secret, 0, seed, 4), MixRun128(x, b, 0, secret, 0, seed, 4);
    RunChanges128(x, x, a, b, i, 0, secret, 0, seed, 4);
    Avalanche128Exactly(v, w);
    var v', w' := Avalanche128(v), Avalanche128(w);
    RunChanges128(v', w', a, b, i, 128, secret, MIDSIZE_STARTOFFSET, seed, n);
    var t, u := SECRET_SIZE_MIN - MIDSIZE_LASTOFFSET - 16, Sub64(0, seed);
    var g, h := MixRun128(v', a, 128, secret, MIDSIZE_STARTOFFSET, seed, n),
                MixRun128(w', b, 128, secret, MIDSIZE_STARTOFFSET, seed, n);
    if i < |a| - 32 {
      Mix32Keeps(g, h, a, b, i, |a| - 16, |a| - 32, secret, t, u);
    } else {
      Mix32Changes(g, a, b, i, |a| - 16, |a| - 32, secret, t, u);
    }
  }

  /** A run of 64-bit mixes sees a byte whose word is multiplied by one. */
  lemma {:induction false} RunChanges(x: u64, y: u64, a: seq<u8>, b: seq<u8>, i: nat, start: nat,
                                      secret: seq<u8>, s: nat, seed: u64, n: nat, k: nat)
    requires OneByte(a, b, i) && start + 16 * n <= |a| && s + 16 * n <= |secret|
    requires start <= i < start + 16 * n ==>
               k < n && Within(i, start + 16 * k) && PartnerIsOne(a, start + 16 * k, secret, s + 16 * k, seed, i)
    ensures |a| == |b|
    ensures if start <= i < start + 16 * n
            then MixRun(x, a, start, secret, s, seed, n) != MixRun(x, b, start, secret, s, seed, n)
            else MixRun(x, a, start, secret, s, seed, n) == MixRun(y, b, start, secret, s, seed, n) <==> x == y
    decreases n
  {
    hide OneByte, Mix16B, PartnerIsOne, Add64;
    SameLength(a, b, i);
    if n > 0 {
      var p, t := start + 16 * (n - 1), s + 16 * (n - 1);
      var m, m' := Mix16B(a, p, secret, t, seed), Mix16B(b, p, secret, t, seed);
      if start <= i < start + 16 * n {
        RunChanges(x, x, a, b, i, start, secret, s, seed, n - 1, k);
        var v, w := MixRun(x, a, start, secret, s, seed, n - 1), MixRun(x, b, start, secret, s, seed, n - 1);
        if p <= i { Mix16Changes(a, b, i, p, secret, t, seed); } else { Mix16Keeps(a, b, i, p, secret, t, seed); }
        AddExactly(v, w, m); AddExactly(m, m', v);
      } else {
        RunChanges(x, y, a, b, i, start, secret, s, seed, n - 1, k);
        Mix16Keeps(a, b, i, p, secret, t, seed);
        AddExactly(MixRun(x, a, start, secret, s, seed, n - 1), MixRun(y, b, start, secret, s, seed, n - 1), m);
      }
    }
  }

  /** Byte i is in one piece of the 64-bit hash, and its word is multiplied by one. */
  predicate SeenByMidMix(input: seq<u8>, i: nat, secret: seq<u8>, seed: u64)
    requires 128 < |input| <= MIDSIZE_MAX && |secret| >= SECRET_SIZE_MIN
  {
    var len := |input|;
    if i < 128 && i < len - 16 then PartnerIsOne(input, 16 * (i / 16), secret, 16 * (i / 16), seed, i)
    else if i < len - 16 then
      PartnerIsOne(input, 16 * (i / 16), secret, MIDSIZE_STARTOFFSET + 16 * (i / 16 - 8), seed, i)
    else 16 * (len / 16) <= i < len
         && PartnerIsOne(input, len - 16, secret, SECRET_SIZE_MIN - MIDSIZE_LASTOFFSET, seed, i)
  }

  lemma OneByteChanges129To240(a: seq<u8>, b: seq<u8>, i: nat, secret: seq<u8>, seed: u64)
    requires OneByte(a, b, i) && 128 < |a| <= MIDSIZE_MAX && |secret| >= SECRET_SIZE_MIN
    requires SeenByMidMix(a, i, secret, seed)
    ensures |a| == |b| && Len129To240Hash64(a, secret, seed) != Len129To240Hash64(b, secret, seed)
  {
    hide OneByte, MixRun, Mix16B, Mul64, Avalanche, PartnerIsOne, Add64;
    SameLength(a, b, i);
    var n, x := |a| / 16 - 8, Mul64(|a|, PRIME64_1);
    RunChanges(x, x, a, b, i, 0, secret, 0, seed, 8, i / 16);
    var v, w := MixRun(x, a, 0, secret, 0, seed, 8), MixRun(x, b, 0, secret, 0, seed, 8);
    AvalancheExactly(v, w);
    var v', w' := Avalanche(v), Avalanche(w);
    var t := SECRET_SIZE_MIN - MIDSIZE_LASTOFFSET;
    var m, m' := Mix16B(a, |a| - 16, secret, t, seed), Mix16B(b, |a| - 16, secret, t, seed);
    if i < |a| - 16 { Mix16Keeps(a, b, i, |a| - 16, secret, t, seed); }
    else { Mix16Changes(a, b, i, |a| - 16, secret, t, seed); }
    RunChanges(v', w', a, b, i, 128, secret, MIDSIZE_STARTOFFSET, seed, n, if i < 128 then 0 else i / 16 - 8);
    var g, h := MixRun(v', a, 128, secret, MIDSIZE_STARTOFFSET, seed, n),
                MixRun(w', b, 128, secret, MIDSIZE_STARTOFFSET, seed, n);
    AddExactly(g, h, m); AddExactly(m, m', g);
    AvalancheExactly(Sum129To240(a, secret, seed), Sum129To240(b, secret, seed));
  }

  // ---- the end of the 128-bit hash ----------------------------------------------------

  /** The two halves are moved against each other by d. */
  predicate Moved(x: U128, y: U128, d: u64) { x.low == Add64(y.low, d) && y.high == Add64(x.high, d) }

  const QUARTER: u64 := 0x4000_0000_0000_0000

  /** The odd factor of the difference of the two primes that FinishMid128 multiplies with, and its inverse. */
  const PRIME_GAP: u64 := 0x0612EBCE70CE4709
  const PRIME_GAP_INV: u64 := 0xC5BC7340D4E57739

  function Combination(x: U128, r: u64): u64
  {
    Add64(Add64(Mul64(x.low, PRIME64_1), Mul64(x.high, PRIME64_4)), r)
  }

  lemma CombinationIs(x: U128, r: u64)
    ensures Combination(x, r) == (x.low * PRIME64_1 + x.high * PRIME64_4 + r) % 0x1_0000_0000_0000_0000
  {
    SumOfRests(x.low * PRIME64_1, x.high * PRIME64_4, r);
  }

  lemma SumOfRests(a: nat, b: nat, r: u64)
    ensures var m := 0x1_0000_0000_0000_0000; ((a % m + b % m) % m + r) % m == (a + b + r) % m
  {
    var m := 0x1_0000_0000_0000_0000;
    SumOfRests2(a, b, m);
    SumOfRests2(a + b, r, m);
  }

  lemma SumOfRests2(a: nat, b: nat, m: nat)
    requires m > 0
    ensures (a % m + b % m) % m == (a + b) % m && ((a % m) + b) % m == (a + b) % m
  {
    var i, j := a / m, b / m;
    assert a == m * i + a % m && b == m * j + b % m;
    var s := a % m + b % m;
    assert s == m * (s / m) + s % m;
    assert a + b == m * (i + j + s / m) + s % m by { assert m * (i + j + s / m) == m * i + m * j + m * (s / m); }
    DivUnique(a + b, m, i + j + s / m, s % m);
    var t := a % m + b;
    assert t == m * (t / m) + t % m;
    assert a + b == m * (i + t / m) + t % m by { assert m * (i + t / m) == m * i + m * (t / m); }
    DivUnique(a + b, m, i + t / m, t % m);
  }

  lemma SameRest(a: int, b: int, m: nat)
    requires m > 0
    ensures a % m == b % m <==> (a - b) % m == 0
  {
    var i, j := a / m, b / m;
    var k := (a - b) / m;
    assert a == m * i + a % m && b == m * j + b % m && a - b == m * k + (a - b) % m;
    if a % m == b % m {
      assert a - b == m * (i - j) by { assert m * (i - j) == m * i - m * j; }
      DivUnique(a - b, m, i - j, 0);
    } else if (a - b) % m == 0 {
      assert a == m * (k + j) + b % m by { assert m * (k + j) == m * k + m * j; }
      DivUnique(a, m, k + j, b % m);
    }
  }

  /** What moving by d adds to the combination. */
  lemma CombinationMoves(x: U128, y: U128, d: u64, r: u64)
    requires Moved(x, y, d)
    ensures Combination(x, r) == Combination(y, r) <==> (4 * PRIME_GAP * d) % 0x1_0000_0000_0000_0000 == 0
  {
    var m := 0x1_0000_0000_0000_0000;
    var p: int, q: int := PRIME64_1, PRIME64_4;
    var a, b := (y.low + d) / m, (x.high + d) / m;
    assert x.low == y.low + d - m * a && y.high == x.high + d - m * b;
    var u: int, v: int := x.low * p + x.high * q + r, y.low * p + y.high * q + r;
    assert x.low * p == y.low * p + d * p - m * (a * p) by {
      assert (y.low + d - m * a) * p == y.low * p + d * p - m * a * p;
    }
    assert y.high * q == x.high * q + d * q - m * (b * q) by {
      assert (x.high + d - m * b) * q == x.high * q + d * q - m * b * q;
    }
    assert p - q == 4 * PRIME_GAP && d * p - d * q == 4 * PRIME_GAP * d;
    assert u - v == 4 * PRIME_GAP * d - m * (a * p - b * q) by {
      assert m * (a * p - b * q) == m * (a * p) - m * (b * q);
    }
    CombinationIs(x, r); CombinationIs(y, r);
    hide Combination;
    SameRest(u, v, m);
    SameRest(4 * PRIME_GAP * d, m * (a * p - b * q), m);
    DivUnique(m * (a * p - b * q), m, a * p - b * q, 0);
    SameRest(u - v, 4 * PRIME_GAP * d, m);
    DivUnique(u - v - 4 * PRIME_GAP * d, m, -(a * p - b * q), 0);
  }

  lemma GapTimesQuarters(e: nat, k: nat)
    requires e == QUARTER * k
    ensures (4 * PRIME_GAP * e) % 0x1_0000_0000_0000_0000 == 0
  {
    DivUnique(4 * PRIME_GAP * e, 0x1_0000_0000_0000_0000, PRIME_GAP * k, 0);
  }

  lemma QuartersOfGap(e: nat, c: nat)
    requires 4 * PRIME_GAP * e == 0x1_0000_0000_0000_0000 * c
    ensures e % QUARTER == 0
  {
    var j := 0x4B10817121F6177;
    assert PRIME_GAP * PRIME_GAP_INV == 0x1_0000_0000_0000_0000 * j + 1;
    assert PRIME_GAP * e == QUARTER * c;
    DivUnique(e, QUARTER, PRIME_GAP_INV * c - 4 * j * e, 0);
  }

  lemma GapVanishesExactly(d: u64)
    ensures (4 * PRIME_GAP * d) % 0x1_0000_0000_0000_0000 == 0 <==> d % QUARTER == 0
  {
    var e: int := d;
    if e % QUARTER == 0 { GapTimesQuarters(e, e / QUARTER); }
    var m := 0x1_0000_0000_0000_0000;
    var g := 4 * PRIME_GAP * e;
    if g % m == 0 { QuartersOfGap(e, g / m); }
  }

  lemma NegationInjective(a: u64, b: u64)
    ensures Sub64(0, a) == Sub64(0, b) <==> a == b
  {
  }

  lemma MovedBy(x: U128, y: U128) returns (d: u64)
    requires Add64(x.low, x.high) == Add64(y.low, y.high)
    ensures d == Sub64(x.low, y.low) && Moved(x, y, d)
  {
    d := Sub64(x.low, y.low);
    AddBack(x.low, y.low);
    Add64Swap(y.low, d, x.high);
    Add64Swap(y.low, x.high, d);
    AddThree(y.low, x.high, d);
    hide Add64, Sub64;
    AddExactly(Add64(x.high, d), y.high, y.low);
  }

  lemma AddBack(a: u64, b: u64)
    ensures Add64(b, Sub64(a, b)) == a
  {
  }

  lemma AddThree(a: u64, b: u64, c: u64)
    ensures Add64(Add64(a, b), c) == Add64(a, Add64(b, c))
  {
    assert Add64(Add64(a, b), c) == (a + b + c) % 0x1_0000_0000_0000_0000;
    assert Add64(a, Add64(b, c)) == (a + b + c) % 0x1_0000_0000_0000_0000;
  }

  lemma MovedKeepsSum(x: U128, y: U128, d: u64)
    requires Moved(x, y, d)
    ensures Add64(x.low, x.high) == Add64(y.low, y.high) && d == Sub64(x.low, y.low)
  {
    Add64Comm(y.low, d);
    AddSub64(d, y.low);
    Add64Swap(y.low, d, x.high);
    Add64Comm(y.low, x.high);
    Add64Swap(x.high, d, y.low);
    Add64Comm(y.low, Add64(x.high, d));
    hide Add64, Sub64;
  }

  lemma FinishIs(x: U128, len: u64, seed: u64)
    ensures FinishMid128(x, len, seed)
         == U128(Avalanche(Add64(x.low, x.high)),
                 Sub64(0, Avalanche(Combination(x, Mul64(Sub64(len, seed), PRIME64_2)))))
  {
    hide Avalanche, Add64, Sub64, Mul64;
  }

  /** Accumulators of inputs of one length have the same hash if and only if they are equal, or their halves are
      moved against each other by one, two or three quarters of the range. */
  lemma FinishMid128Exactly(x: U128, y: U128, len: u64, seed: u64)
    ensures FinishMid128(x, len, seed) == FinishMid128(y, len, seed)
        <==> Moved(x, y, Sub64(x.low, y.low)) && Sub64(x.low, y.low) % QUARTER == 0
  {
    var r, d := Mul64(Sub64(len, seed), PRIME64_2), Sub64(x.low, y.low);
    FinishIs(x, len, seed); FinishIs(y, len, seed);
    hide FinishMid128, Avalanche, Combination, Moved;
    AvalancheExactly(Add64(x.low, x.high), Add64(y.low, y.high));
    AvalancheExactly(Combination(x, r), Combination(y, r));
    NegationInjective(Avalanche(Combination(x, r)), Avalanche(Combination(y, r)));
    GapVanishesExactly(d);
    if Add64(x.low, x.high) == Add64(y.low, y.high) {
      var e := MovedBy(x, y);
      CombinationMoves(x, y, d, r);
    } else if Moved(x, y, d) {
      MovedKeepsSum(x, y, d);
      assert false;
    }
  }

  // ---- more than 240 bytes ------------------------------------------------------------

  /** A lane that differs still differs after the same stripe, ... */
  lemma LaneKeeps(x: seq<u64>, y: seq<u64>, stripe: seq<u8>, key: seq<u8>, k: nat)
    requires |x| == |y| == 8 && |stripe| == 64 && |key| >= 64 && k < 8
    ensures Accumulate512(x, stripe, key)[k] == Accumulate512(y, stripe, key)[k] <==> x[k] == y[k]
  {
    var data, prod := DataLanes(stripe), Products(stripe, key);
    hide Add64, Lane, KeyedProduct;
    AddExactly(Add64(x[k], data[Neighbour(k)]), Add64(y[k], data[Neighbour(k)]), prod[k]);
    AddExactly(x[k], y[k], data[Neighbour(k)]);
  }

  lemma LaneIs(x: seq<u64>, stripe: seq<u8>, key: seq<u8>, k: nat)
    requires |x| == 8 && |stripe| == 64 && |key| >= 64 && k < 8
    ensures Neighbour(k) < 8 && Neighbour(Neighbour(k)) == k && Neighbour(k) != k
    ensures Accumulate512(x, stripe, key)[k]
         == Add64(Add64(x[k], Lane(stripe, Neighbour(k))), KeyedProduct(stripe, key, k))
  {
    hide Add64, Lane, KeyedProduct;
  }

  lemma StripeLanes(a: seq<u8>, b: seq<u8>, i: nat, j: nat)
    requires |a| == 64 && OneByte(a, b, i) && j < 8
    ensures |b| == 64 && i < 64 && (Lane(a, j) == Lane(b, j) <==> j != i / 8)
  {
    SameLength(a, b, i);
    WordsChange(a, b, i, 8 * j);
    hide OneByte, ReadLE64;
  }

  /** ... and a changed byte changes the neighbour of its lane, to which its word is added as it is. */
  lemma LaneChanges(x: seq<u64>, a: seq<u8>, b: seq<u8>, i: nat, key: seq<u8>)
    requires |x| == 8 && |a| == 64 && OneByte(a, b, i) && |key| >= 64
    ensures |b| == 64 && i < 64
    ensures Accumulate512(x, a, key)[Neighbour(i / 8)] != Accumulate512(x, b, key)[Neighbour(i / 8)]
  {
    hide OneByte, Add64, Xor64, Lane, Mul32To64, Accumulate512, Neighbour;
    StripeLanes(a, b, i, 0);
    var j, n := i / 8, Neighbour(i / 8);
    LaneIs(x, a, key, j);
    StripeLanes(a, b, i, j); StripeLanes(a, b, i, n);
    LaneIs(x, a, key, n); LaneIs(x, b, key, n);
    AddExactly(Add64(x[n], Lane(a, j)), Add64(x[n], Lane(b, j)), KeyedProduct(a, key, n));
    AddExactly(Lane(a, j), Lane(b, j), x[n]);
  }

  const PRIME32_1_INV64: u64 := 0xCFA4A56B0E8B2F51

  lemma ScrambleExactly(a: u64, b: u64, key: u64)
    ensures ScrambleLane(a, key) == ScrambleLane(b, key) <==> a == b
  {
    hide Mul64, Xor64, XorShift64, UnXorShift64;
    if ScrambleLane(a, key) == ScrambleLane(b, key) {
      ScrambleInverse();
      Mul64Injective(Xor64(XorShift64(a, 47), key), Xor64(XorShift64(b, 47), key), PRIME32_1, PRIME32_1_INV64);
      XorExactly(XorShift64(a, 47), XorShift64(b, 47), key);
      XorShiftInverse(a, 47); XorShiftInverse(b, 47);
    }
  }

  lemma ScrambleInverse()
    ensures (PRIME32_1 * PRIME32_1_INV64) % 0x1_0000_0000_0000_0000 == 1
  {
  }

  lemma AbsorbKeeps(x: seq<u64>, y: seq<u64>, stripe: seq<u8>, secret: seq<u8>, j: nat, k: nat)
    requires |x| == |y| == 8 && |stripe| == 64 && |secret| >= SECRET_SIZE_MIN && j < StripesPerBlock(secret) && k < 8
    ensures Absorb(x, stripe, secret, j)[k] == Absorb(y, stripe, secret, j)[k] <==> x[k] == y[k]
  {
    hide Accumulate512, ScrambleLane, Lane;
    var key := secret[8 * j..];
    LaneKeeps(x, y, stripe, key, k);
    ScrambleExactly(Accumulate512(x, stripe, key)[k], Accumulate512(y, stripe, key)[k],
                    Lane(secret[SecretLimit(secret)..], k));
  }

  lemma AbsorbChanges(x: seq<u64>, a: seq<u8>, b: seq<u8>, i: nat, secret: seq<u8>, j: nat)
    requires |x| == 8 && |a| == 64 && OneByte(a, b, i) && |secret| >= SECRET_SIZE_MIN && j < StripesPerBlock(secret)
    ensures |b| == 64 && i < 64
    ensures Absorb(x, a, secret, j)[Neighbour(i / 8)] != Absorb(x, b, secret, j)[Neighbour(i / 8)]
  {
    hide Accumulate512, ScrambleLane, Lane, OneByte;
    var key, k := secret[8 * j..], Neighbour(i / 8);
    LaneChanges(x, a, b, i, key);
    ScrambleExactly(Accumulate512(x, a, key)[k], Accumulate512(x, b, key)[k], Lane(secret[SecretLimit(secret)..], k));
  }

  lemma SliceIsOneByte(a: seq<u8>, b: seq<u8>, i: nat, p: nat, n: nat)
    requires OneByte(a, b, i) && p + n <= |a|
    ensures |a| == |b|
    ensures if p <= i < p + n then OneByte(a[p..p + n], b[p..p + n], i - p) else a[p..p + n] == b[p..p + n]
  {
  }

  /** The lane that a changed byte of a stripe is certain to change. */
  function LaneOfByte(i: nat): (k: nat)
    ensures k < 8
  {
    Neighbour(i % 64 / 8)
  }

  /** What two folds have in common before and after the stripe at p. */
  ghost predicate Parallel(x: seq<u64>, y: seq<u64>, i: nat, p: nat)
    requires |x| == |y| == 8
  {
    if i < p then x[LaneOfByte(i)] != y[LaneOfByte(i)] else x == y
  }

  lemma StripeSees(x: seq<u64>, y: seq<u64>, a: seq<u8>, b: seq<u8>, i: nat, secret: seq<u8>, n: nat)
    requires OneByte(a, b, i) && n > 0 && 64 * n <= |a| == |b| && |secret| >= SECRET_SIZE_MIN
    requires |x| == |y| == 8 && Parallel(x, y, i, 64 * (n - 1))
    ensures Parallel(Absorb(x, Stripe(a, n - 1), secret, Position(secret, n - 1)),
                     Absorb(y, Stripe(b, n - 1), secret, Position(secret, n - 1)), i, 64 * n)
  {
    hide OneByte, Absorb, LaneOfByte, Position, StripesPerBlock;
    var p, j := 64 * (n - 1), Position(secret, n - 1);
    SliceIsOneByte(a, b, i, p, 64);
    if i < p {
      AbsorbKeeps(x, y, Stripe(a, n - 1), secret, j, LaneOfByte(i));
    } else if i < 64 * n {
      LaneInBlock(i, n);
      AbsorbChanges(x, Stripe(a, n - 1), Stripe(b, n - 1), i - p, secret, j);
    }
  }

  lemma {:induction false} FoldSees(a: seq<u8>, b: seq<u8>, i: nat, secret: seq<u8>, n: nat)
    requires OneByte(a, b, i) && 64 * n <= |a| == |b| && |secret| >= SECRET_SIZE_MIN
    ensures Parallel(Fold(a, secret, n), Fold(b, secret, n), i, 64 * n)
  {
    if n > 0 {
      hide OneByte, Absorb, Parallel, Stripe, Position, StripesPerBlock;
      FoldSees(a, b, i, secret, n - 1);
      StripeSees(Fold(a, secret, n - 1), Fold(b, secret, n - 1), a, b, i, secret, n);
    }
  }

  lemma LaneInBlock(i: nat, n: nat)
    requires n > 0 && 64 * (n - 1) <= i < 64 * n
    ensures LaneOfByte(i) == Neighbour((i - 64 * (n - 1)) / 8)
  {
    DivUnique(i, 64, n - 1, i - 64 * (n - 1));
  }

  /** Changing any byte of a long input that is read once, in a stripe or in the last 64 bytes, changes an
      accumulator: whatever the secret, the number of stripes and of scrambles. */
  lemma OneByteChangesLongAcc(a: seq<u8>, b: seq<u8>, i: nat, secret: seq<u8>)
    requires OneByte(a, b, i) && |a| > STRIPE_LEN && |secret| >= SECRET_SIZE_MIN
    requires i < |a| - 64 || 64 * ((|a| - 1) / 64) <= i
    ensures |a| == |b|
    ensures var k := if i < |a| - 64 then LaneOfByte(i) else LaneOfByte(i - (|a| - 64));
            LongAcc(a, secret)[k] != LongAcc(b, secret)[k]
  {
    hide *;
    SameLength(a, b, i);
    var n := (|a| - 1) / 64;
    FoldSees(a, b, i, secret, n);
    LongAccIs(a, secret); LongAccIs(b, secret);
    LastStripeSees(Fold(a, secret, n), Fold(b, secret, n), a, b, i, secret);
  }

  lemma LongAccIs(data: seq<u8>, secret: seq<u8>)
    requires |data| > STRIPE_LEN && |secret| >= SECRET_SIZE_MIN
    ensures LongAcc(data, secret) == Accumulate512(Fold(data, secret, (|data| - 1) / 64), data[|data| - 64..],
                                                   secret[SecretLimit(secret) - SECRET_LASTACC_START..])
  {
    hide Fold, Accumulate512;
  }

  lemma LastStripeSees(x: seq<u64>, y: seq<u64>, a: seq<u8>, b: seq<u8>, i: nat, secret: seq<u8>)
    requires OneByte(a, b, i) && |a| == |b| > STRIPE_LEN && |secret| >= SECRET_SIZE_MIN
    requires |x| == |y| == 8 && Parallel(x, y, i, 64 * ((|a| - 1) / 64))
    requires i < |a| - 64 || 64 * ((|a| - 1) / 64) <= i
    ensures var key := secret[SecretLimit(secret) - SECRET_LASTACC_START..];
            var k := if i < |a| - 64 then LaneOfByte(i) else LaneOfByte(i - (|a| - 64));
            Accumulate512(x, a[|a| - 64..], key)[k] != Accumulate512(y, b[|a| - 64..], key)[k]
  {
    hide OneByte, Accumulate512, LaneOfByte;
    var p, key := |a| - 64, secret[SecretLimit(secret) - SECRET_LASTACC_START..];
    SliceIsOneByte(a, b, i, p, 64);
    assert a[p..p + 64] == a[p..] && b[p..p + 64] == b[p..];
    if i < p {
      LaneKeeps(x, y, a[p..], key, LaneOfByte(i));
    } else {
      SameLength(a, b, i);
      LaneInBlock(i - p, 1);
      LaneChanges(x, a[p..], b[p..], i - p, key);
    }
  }

  // ---- merging ------------------------------------------------------------------------

  lemma NeighbourIsPair(i: nat)
    requires i < 8
    ensures Neighbour(i) < 8 && Neighbour(i) != i && Neighbour(i) / 2 == i / 2
  {
  }

  lemma PairChanges(x: seq<u64>, y: seq<u64>, i: nat, secret: seq<u8>, s: nat)
    requires |x| == |y| == 8 && i < 8 && s + 64 <= |secret|
    requires Neighbour(i) < 8 && x[Neighbour(i)] == y[Neighbour(i)]
    requires Xor64(x[Neighbour(i)], At64(secret, s + 8 * Neighbour(i))) == 1
    ensures var p, t := 2 * (i / 2), s + 16 * (i / 2);
            Mix2Accs(x, p, secret, t) == Mix2Accs(y, p, secret, t) <==> x[i] == y[i]
  {
    hide Mul128Fold64, Xor64, At64;
    var w := At64(secret, s + 8 * i);
    XorExactly(x[i], y[i], w);
    FoldChanges64(Xor64(x[i], w), Xor64(y[i], w), Xor64(x[Neighbour(i)], At64(secret, s + 8 * Neighbour(i))));
  }

  lemma {:induction false} MergeSumChanges(x: seq<u64>, y: seq<u64>, i: nat, secret: seq<u8>, s: nat, start: u64,
                                           n: nat)
    requires |x| == |y| == 8 && i < 8 && n <= 4 && s + 64 <= |secret|
    requires x[i] != y[i] && forall j :: 0 <= j < 8 && j != i ==> x[j] == y[j]
    requires Neighbour(i) < 8 && Xor64(x[Neighbour(i)], At64(secret, s + 8 * Neighbour(i))) == 1
    ensures MergeSum(x, secret, s, start, n) == MergeSum(y, secret, s, start, n) <==> n <= i / 2
  {
    hide Mix2Accs, Add64, Xor64, At64;
    if n > 0 {
      MergeSumChanges(x, y, i, secret, s, start, n - 1);
      var p, t := 2 * (n - 1), s + 16 * (n - 1);
      var u, v := MergeSum(x, secret, s, start, n - 1), MergeSum(y, secret, s, start, n - 1);
      if n - 1 == i / 2 { PairChanges(x, y, i, secret, s); } else { PairKeeps(x, y, i, secret, t, p); }
      AddExactly(u, v, Mix2Accs(x, p, secret, t));
      AddExactly(Mix2Accs(x, p, secret, t), Mix2Accs(y, p, secret, t), u);
    }
  }

  lemma PairKeeps(x: seq<u64>, y: seq<u64>, i: nat, secret: seq<u8>, t: nat, p: nat)
    requires |x| == |y| == 8 && p < 7 && t + 16 <= |secret| && x[p] == y[p] && x[p + 1] == y[p + 1]
    ensures Mix2Accs(x, p, secret, t) == Mix2Accs(y, p, secret, t)
  {
    hide Mul128Fold64, Xor64, At64;
  }

  /** Every accumulator counts in a merge, for every secret, place in it and start: changing one whose partner
      the secret makes one changes the result. */
  lemma EveryLaneCounts(acc: seq<u64>, i: nat, lane: u64, secret: seq<u8>, s: nat, start: u64)
    requires |acc| == 8 && i < 8 && lane != acc[i] && s + 64 <= |secret|
    requires Neighbour(i) < 8 && Xor64(acc[Neighbour(i)], At64(secret, s + 8 * Neighbour(i))) == 1
    ensures MergeAccs(acc[i := lane], secret, s, start) != MergeAccs(acc, secret, s, start)
  {
    NeighbourIsPair(i);
    hide MergeSum, Avalanche, Xor64, At64;
    MergeSumChanges(acc, acc[i := lane], i, secret, s, start, 4);
    AvalancheExactly(MergeSum(acc, secret, s, start, 4), MergeSum(acc[i := lane], secret, s, start, 4));
  }
}
