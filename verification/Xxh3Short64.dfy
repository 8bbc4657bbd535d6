/** The 64-bit XXH3 hash of up to 8 bytes loses nothing: inputs of one length have the same hash only if they are
    the same. */
module Xxh3Short64 {
  import opened Words
  import opened Literals
  import opened Xxh3Short
  import opened Xxh3OneShot
  import opened Xxh3Inverse

  // ---- rotations and exclusive or -----------------------------------------------------

  lemma Below(h: nat, l: nat, p: nat, q: nat)
    requires h < p && l < q
    ensures Times(h, q) + l < p * q
  {
    MulMonotone(q, h + 1, p);
    assert (h + 1) * q == h * q + q;
  }

  lemma PartsOf(x: nat, p: nat, q: nat) returns (h: nat, l: nat)
    requires p > 0 && q > 0 && x < p * q
    ensures h < p && l < q && x == Times(h, q) + l
  {
    QuotientBound(x, p, q);
    h, l := x / q, x % q;
  }

  /** A rotation exchanges the two parts of a number. */
  lemma RotateIs(x: nat, h: nat, l: nat, p: nat, q: nat)
    requires h < p && l < q && x == Times(h, q) + l
    ensures x < p * q && Rotate(x, p, q) == Times(l, p) + h
  {
    Below(h, l, p, q);
    DivUnique(x, q, h, l);
  }

  lemma RotateXor(a: nat, b: nat, m: nat, n: nat)
    requires a < Pow2(m) * Pow2(n) && b < Pow2(m) * Pow2(n)
    ensures Xor(a, b) < Pow2(m) * Pow2(n)
    ensures Rotate(Xor(a, b), Pow2(m), Pow2(n)) == Xor(Rotate(a, Pow2(m), Pow2(n)), Rotate(b, Pow2(m), Pow2(n)))
  {
    hide Xor, Pow2, Times, Rotate;
    var p, q := Pow2(m), Pow2(n);
    var h, l := PartsOf(a, p, q);
    var g, k := PartsOf(b, p, q);
    XorConcat(h, g, l, k, n); XorConcat(l, k, h, g, m);
    XorBound(l, k, n); XorBound(h, g, m);
    RotateIs(a, h, l, p, q); RotateIs(b, g, k, p, q);
    RotateIs(Xor(a, b), Xor(h, g), Xor(l, k), p, q);
  }

  lemma Rotl64Xor(a: u64, b: u64, r: nat)
    requires r <= 64
    ensures Rotl64(Xor64(a, b), r) == Xor64(Rotl64(a, r), Rotl64(b, r))
  {
    Pow2Literals(); Pow2Add(r, 64 - r);
    hide Xor, Pow2, Rotate;
    RotateXor(a, b, r, 64 - r);
  }

  lemma TimesAdd(a: nat, b: nat, c: nat)
    ensures Times(a + b, c) == Times(a, c) + Times(b, c)
  {
  }

  lemma TimesTimes(a: nat, b: nat, c: nat)
    ensures Times(Times(a, b), c) == Times(a, b * c) && Times(Times(a, c), b) == Times(a, b * c)
  {
  }

  /** Rotations add up: x has three parts, of which p, q and r are the ranges. */
  lemma RotateTwice(x: nat, h: nat, m: nat, l: nat, p: nat, q: nat, r: nat)
    requires h < p && m < q && l < r && x == Times(Times(h, q) + m, r) + l && q * r > 0 && r * p > 0 && p * q > 0
    ensures x < p * (q * r) && x < (p * q) * r && Rotate(x, p, q * r) < q * (r * p)
    ensures Rotate(Rotate(x, p, q * r), q, r * p) == Rotate(x, p * q, r)
  {
    Below(m, l, q, r); Below(h, m, p, q); Below(l, h, r, p);
    hide Times, Rotate;
    var y := Times(Times(m, r) + l, p) + h;
    TimesAdd(Times(h, q), m, r); TimesTimes(h, q, r);
    RotateIs(x, h, Times(m, r) + l, p, q * r);
    RotateIs(x, Times(h, q) + m, l, p * q, r);
    TimesAdd(Times(m, r), l, p); TimesTimes(m, r, p);
    RotateIs(y, m, Times(l, p) + h, q, r * p);
    TimesAdd(Times(l, p), h, q); TimesTimes(l, p, q);
  }

  lemma Rotl64Is(x: u64, r: nat)
    requires r <= 64
    ensures x < Pow2(r) * Pow2(64 - r) && Rotl64(x, r) == Rotate(x, Pow2(r), Pow2(64 - r))
  {
    Pow2Literals(); Pow2Add(r, 64 - r);
    hide Pow2, Rotate;
  }

  lemma Rotl64Twice(x: u64, r: nat, s: nat)
    requires r + s <= 64
    ensures Rotl64(Rotl64(x, r), s) == Rotl64(x, r + s)
  {
    var t := 64 - r - s;
    Pow2Add(r, s); Pow2Add(s, t); Pow2Add(t, r);
    hide Pow2, Rotate, Rotl64, Times;
    var p, q, c := Pow2(r), Pow2(s), Pow2(t);
    Rotl64Is(x, r); Rotl64Is(x, r + s); Rotl64Is(Rotl64(x, r), s);
    assert t == 64 - (r + s) && s + t == 64 - r && t + r == 64 - s;
    var g, l := PartsOf(x, p * q, c);
    var h, m := PartsOf(g, p, q);
    RotateTwice(x, h, m, l, p, q, c);
  }

  lemma Rotl64Whole(x: u64)
    ensures Rotl64(x, 64) == x && Rotl64(x, 0) == x
  {
    Rotl64Is(x, 64); Rotl64Is(x, 0);
    assert Pow2(0) == 1;
    Pow2Literals();
    hide Pow2, Rotl64;
    assert x % 1 == 0 && x / 1 == x && x % TWO64 == x && x / TWO64 == 0;
  }

  /** Two rotations are one, modulo 64. */
  function Sum64(r: nat, s: nat): nat { if r + s < 64 then r + s else r + s - 64 }

  lemma Rotl64Sum(x: u64, r: nat, s: nat)
    requires r < 64 && s < 64
    ensures Rotl64(Rotl64(x, r), s) == Rotl64(x, Sum64(r, s))
  {
    hide Rotl64;
    if r + s < 64 {
      Rotl64Twice(x, r, s);
    } else {
      var y := Rotl64(x, r);
      Rotl64Twice(y, 64 - r, r + s - 64);
      Rotl64Twice(x, r, 64 - r);
      Rotl64Whole(x);
    }
  }

  // ---- the first step of rrmxmx -------------------------------------------------------

  function Triple(h: u64, r: nat, s: nat): u64
    requires r < 64 && s < 64
  {
    Xor64(h, Xor64(Rotl64(h, r), Rotl64(h, s)))
  }

  lemma XorRegroup(a: nat, b: nat, c: nat, d: nat)
    ensures Xor(Xor(a, b), Xor(c, d)) == Xor(Xor(a, c), Xor(b, d))
  {
    hide Xor;
    XorAssoc(a, b, Xor(c, d)); XorAssoc(b, c, d); XorComm(b, c); XorAssoc(c, b, d); XorAssoc(a, c, Xor(b, d));
  }

  lemma XorThrough(a: nat, b: nat, c: nat)
    ensures Xor(Xor(a, b), Xor(b, c)) == Xor(a, c)
  {
    hide Xor;
    XorAssoc(a, b, Xor(b, c)); XorAssoc(b, b, c); XorSelf(b); XorComm(0, c); XorZero(c);
  }

  lemma TripleAlgebra(h: nat, a: nat, b: nat, aa: nat, ab: nat, bb: nat)
    ensures Xor(Xor(h, Xor(a, b)), Xor(Xor(a, Xor(aa, ab)), Xor(b, Xor(ab, bb)))) == Xor(h, Xor(aa, bb))
  {
    hide Xor;
    XorRegroup(a, Xor(aa, ab), b, Xor(ab, bb));
    XorThrough(aa, ab, bb);
    XorThrough(h, Xor(a, b), Xor(aa, bb));
  }

  lemma Rotl64Triple(h: u64, r: nat, s: nat, t: nat)
    requires r < 64 && s < 64 && t < 64
    ensures Rotl64(Triple(h, r, s), t) == Xor64(Rotl64(h, t), Xor64(Rotl64(h, Sum64(r, t)), Rotl64(h, Sum64(s, t))))
  {
    hide Xor64, Rotl64;
    Rotl64Xor(h, Xor64(Rotl64(h, r), Rotl64(h, s)), t);
    Rotl64Xor(Rotl64(h, r), Rotl64(h, s), t);
    Rotl64Sum(h, r, t); Rotl64Sum(h, s, t);
  }

  /** Doing it twice doubles the rotations: the mixed terms cancel. */
  lemma TripleTwice(h: u64, r: nat, s: nat)
    requires r < 64 && s < 64
    ensures Triple(Triple(h, r, s), r, s) == Triple(h, Sum64(r, r), Sum64(s, s))
  {
    Rotl64Triple(h, r, s, r); Rotl64Triple(h, r, s, s);
    assert Sum64(r, s) == Sum64(s, r);
    hide Xor, Rotl64, Sum64;
    TripleAlgebra(h, Rotl64(h, r), Rotl64(h, s),
                  Rotl64(h, Sum64(r, r)), Rotl64(h, Sum64(r, s)), Rotl64(h, Sum64(s, s)));
  }

  lemma TripleSquares(h: u64, g: u64, r: nat, s: nat)
    requires r < 64 && s < 64 && Triple(h, r, s) == Triple(g, r, s)
    ensures Triple(h, Sum64(r, r), Sum64(s, s)) == Triple(g, Sum64(r, r), Sum64(s, s))
  {
    hide Triple;
    TripleTwice(h, r, s); TripleTwice(g, r, s);
  }

  lemma TripleOfNone(h: u64)
    ensures Triple(h, 0, 0) == h
  {
    hide Rotl64, Xor;
    Rotl64Whole(h);
    XorSelf(h); XorZero(h);
  }

  /** Six times doubled, both rotations are by a multiple of 64 bits, and nothing but the word is left. */
  lemma TripleInjective(h: u64, g: u64)
    requires Triple(h, 49, 24) == Triple(g, 49, 24)
    ensures h == g
  {
    hide Triple;
    TripleSquares(h, g, 49, 24);
    TripleSquares(h, g, 34, 48);
    TripleSquares(h, g, 4, 32);
    TripleSquares(h, g, 8, 0);
    TripleSquares(h, g, 16, 0);
    TripleSquares(h, g, 32, 0);
    TripleOfNone(h); TripleOfNone(g);
  }

  // ---- rrmxmx -------------------------------------------------------------------------

  lemma ShiftAndLength(a: u64, b: u64, len: u64)
    requires len <= 8
    requires Xor64(a, Add64(Shr(a, 35), len)) == Xor64(b, Add64(Shr(b, 35), len))
    ensures a == b
  {
    UpperPart(a, len); UpperPart(b, len);
    hide Xor, Shr, Add64;
    XorCancel(a, Add64(Shr(a, 35), len)); XorCancel(b, Add64(Shr(b, 35), len));
  }

  /** The upper 29 bits are not touched, and they determine what was added to the others. */
  lemma UpperPart(a: u64, len: u64)
    requires len <= 8
    ensures Shr(Xor64(a, Add64(Shr(a, 35), len)), 35) == Shr(a, 35)
  {
    Powers();
    ShrIsQuotient(a, 35);
    hide Xor, Pow2;
    var m := Add64(Shr(a, 35), len);
    assert m < Pow2(35) by { hide Shr; }
    ShrXor(a, m, 35);
    ShrGone(m, 35);
    XorZero(Shr(a, 35));
  }

  lemma RrmxmxInjective(h: u64, g: u64, len: u64)
    requires len <= 8 && Rrmxmx(h, len) == Rrmxmx(g, len)
    ensures h == g
  {
    hide Mul64, Xor64, Rotl64, Shr, Add64, UnXorShift64;
    var a, b := Mul64(Triple(h, 49, 24), MX_PRIME), Mul64(Triple(g, 49, 24), MX_PRIME);
    var c, d := Xor64(a, Add64(Shr(a, 35), len)), Xor64(b, Add64(Shr(b, 35), len));
    XorShiftInverse(Mul64(c, MX_PRIME), 28); XorShiftInverse(Mul64(d, MX_PRIME), 28);
    MxInverse();
    Mul64Cancel(c, MX_PRIME, MX_INV); Mul64Cancel(d, MX_PRIME, MX_INV);
    ShiftAndLength(a, b, len);
    Mul64Cancel(Triple(h, 49, 24), MX_PRIME, MX_INV); Mul64Cancel(Triple(g, 49, 24), MX_PRIME, MX_INV);
    TripleInjective(h, g);
  }

  lemma MxInverse()
    ensures (MX_PRIME * MX_INV) % 0x1_0000_0000_0000_0000 == 1
  {
  }

  // ---- the results --------------------------------------------------------------------

  lemma Len4To8Injective(a: seq<u8>, b: seq<u8>, secret: seq<u8>, seed: u64)
    requires 4 <= |a| == |b| <= 8 && |secret| >= SECRET_SIZE_MIN
    requires Len4To8Hash64(a, secret, seed) == Len4To8Hash64(b, secret, seed)
    ensures a == b
  {
    hide Rrmxmx, Xor64, At64, At32, SpreadSeed, Sub64, WriteLE;
    var n := |a|;
    var flip := Sub64(Xor64(At64(secret, 8), At64(secret, 16)), SpreadSeed(seed));
    var x, y := Join(At32(a, n - 4), At32(a, 0)), Join(At32(b, n - 4), At32(b, 0));
    RrmxmxInjective(Xor64(x, flip), Xor64(y, flip), n);
    Xor64Cancel(x, flip); Xor64Cancel(y, flip);
    WriteAt32(a, 0); WriteAt32(a, n - 4); WriteAt32(b, 0); WriteAt32(b, n - 4);
    assert a == a[0..4][..n - 4] + a[n - 4..n] && b == b[0..4][..n - 4] + b[n - 4..n];
  }

  lemma Len1To3Injective(a: seq<u8>, b: seq<u8>, secret: seq<u8>, seed: u64)
    requires 1 <= |a| == |b| <= 3 && |secret| >= SECRET_SIZE_MIN
    requires Len1To3Hash64(a, secret, seed) == Len1To3Hash64(b, secret, seed)
    ensures a == b
  {
    hide Xxh64Avalanche, UnXxh64Avalanche, Xor64, Xor32, At32, Combined, Uncombined;
    var flip := Add64(Xor32(At32(secret, 0), At32(secret, 4)), seed);
    Xxh64AvalancheInverse(Xor64(Combined(a), flip)); Xxh64AvalancheInverse(Xor64(Combined(b), flip));
    Xor64Cancel(Combined(a), flip); Xor64Cancel(Combined(b), flip);
    UncombinedOfCombined(a); UncombinedOfCombined(b);
  }

  /** For every key, inputs of one length of up to 8 bytes have the same 64-bit hash only if they are the same. */
  lemma ShortInputsDoNotCollide64(key: Key, a: seq<u8>, b: seq<u8>)
    requires key.Valid() && |a| == |b| <= 8
    ensures Hash64(key, a) == Hash64(key, b) <==> a == b
  {
    hide Len4To8Hash64, Len1To3Hash64, KSecret;
    var secret, seed := key.ShortSecret(), key.ShortSeed();
    if Hash64(key, a) == Hash64(key, b) {
      if |a| >= 4 { Len4To8Injective(a, b, secret, seed); }
      else if |a| > 0 { Len1To3Injective(a, b, secret, seed); }
    }
  }
}
