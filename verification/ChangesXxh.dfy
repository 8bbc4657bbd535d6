/** What a change of the input changes in XXH32 and XXH64.  A stripe is read in full: other bytes give other
    lanes.  And changing one byte, of an input of any length, always changes its XXH32. */
module ChangesXxh {
  import opened Words
  import opened Xxh3Kernel
  import opened Xxh3Short
  import opened Xxh3Inverse
  import Xxh32
  import Xxh64

  const PRIME32_1_INV: u32 := 0x0E8B2F51
  const PRIME32_3_INV: u32 := 0xA89ED915
  const PRIME32_4_INV: u32 := 0xA0FE3BCF
  const PRIME32_5_INV: u32 := 0xAE398151
  const PRIME64_5_INV: u64 := 0xC592C09FDFBA7F0D

  /** Inputs of one length that differ in byte i and nowhere else. */
  predicate OneByte(a: seq<u8>, b: seq<u8>, i: nat)
  {
    |a| == |b| && i < |a| && forall j :: 0 <= j < |a| ==> (a[j] == b[j] <==> j != i)
  }

  lemma SliceChanges(a: seq<u8>, b: seq<u8>, i: nat, p: nat, n: nat)
    requires OneByte(a, b, i) && p + n <= |a|
    ensures a[p..p + n] != b[p..p + n] <==> p <= i < p + n
  {
    if p <= i < p + n {
      assert a[p..p + n][i - p] == a[i] && b[p..p + n][i - p] == b[i];
    } else {
      assert a[p..p + n] == b[p..p + n];
    }
  }

  // ---- the steps lose nothing ---------------------------------------------------------

  lemma Mul32Injective(a: u32, b: u32, p: u32, q: u32)
    requires (p * q) % 0x1_0000_0000 == 1 && Mul32(a, p) == Mul32(b, p)
    ensures a == b
  {
    MulCancel(a, p, q, 0x1_0000_0000);
    MulCancel(b, p, q, 0x1_0000_0000);
  }

  lemma Mul64Injective(a: u64, b: u64, p: u64, q: u64)
    requires (p * q) % 0x1_0000_0000_0000_0000 == 1 && Mul64(a, p) == Mul64(b, p)
    ensures a == b
  {
    Mul64Cancel(a, p, q);
    Mul64Cancel(b, p, q);
  }

  lemma Add32Injective(a: u32, b: u32, c: u32)
    requires Add32(a, c) == Add32(b, c) || Add32(c, a) == Add32(c, b)
    ensures a == b
  {
  }

  lemma Add64Injective(a: u64, b: u64, c: u64)
    requires Add64(a, c) == Add64(b, c) || Add64(c, a) == Add64(c, b)
    ensures a == b
  {
  }

  lemma Xor64Injective(a: u64, b: u64, c: u64)
    requires Xor64(a, c) == Xor64(b, c) || Xor64(c, a) == Xor64(c, b)
    ensures a == b
  {
    XorComm(c, a); XorComm(c, b);
    XorCancel(a, c); XorCancel(b, c);
  }

  lemma Rotl32Injective(a: u32, b: u32, r: nat)
    requires r <= 32 && Rotl32(a, r) == Rotl32(b, r)
    ensures a == b
  {
    Pow2Literals(); Pow2Add(r, 32 - r);
    hide Pow2, Rotate;
    RotateInjective(a, b, Pow2(r), Pow2(32 - r));
  }

  lemma Rotl64Injective(a: u64, b: u64, r: nat)
    requires r <= 64 && Rotl64(a, r) == Rotl64(b, r)
    ensures a == b
  {
    Pow2Literals(); Pow2Add(r, 64 - r);
    hide Pow2, Rotate;
    RotateInjective(a, b, Pow2(r), Pow2(64 - r));
  }

  // ---- XXH32 --------------------------------------------------------------------------

  /** One round loses neither its lane nor its word. */
  lemma Round32Exactly(a: u32, b: u32, v: u32, w: u32)
    requires a == b || v == w
    ensures Xxh32.Round32(a, v) == Xxh32.Round32(b, w) <==> a == b && v == w
  {
    assert (PRIME32_1 * PRIME32_1_INV) % 0x1_0000_0000 == 1 && (PRIME32_2 * PRIME32_2_INV) % 0x1_0000_0000 == 1;
    var x, y := Mul32(v, PRIME32_2), Mul32(w, PRIME32_2);
    var p, q := Add32(a, x), Add32(b, y);
    if Xxh32.Round32(a, v) == Xxh32.Round32(b, w) {
      hide Mul32, Add32, Rotl32;
      Mul32Injective(Rotl32(p, 13), Rotl32(q, 13), PRIME32_1, PRIME32_1_INV);
      Rotl32Injective(p, q, 13);
      if a == b {
        Add32Injective(x, y, a);
        Mul32Injective(v, w, PRIME32_2, PRIME32_2_INV);
      } else {
        Add32Injective(a, b, x);
      }
    }
  }

  lemma Word32Exactly(a: seq<u8>, b: seq<u8>, p: nat, q: nat)
    requires p + 4 <= |a| && q + 4 <= |b|
    ensures At32(a, p) == At32(b, q) <==> a[p..p + 4] == b[q..q + 4]
  {
    hide WriteLE, ReadLE;
    WriteAt32(a, p); WriteAt32(b, q);
    if a[p..p + 4] == b[q..q + 4] { assert a[p..][..4] == a[p..p + 4] == b[q..q + 4] == b[q..][..4]; }
  }

  /** A stripe is its 16 bytes: from the same lanes, other bytes give other lanes. */
  lemma Stripe32Exactly(l: Xxh32.Lanes32, a: seq<u8>, b: seq<u8>, p: nat, q: nat)
    requires p + 16 <= |a| && q + 16 <= |b|
    ensures Xxh32.RoundStripe32(l, a, p) == Xxh32.RoundStripe32(l, b, q) <==> a[p..p + 16] == b[q..q + 16]
  {
    hide Xxh32.Round32, At32;
    Round32Exactly(l.v1, l.v1, At32(a, p), At32(b, q));
    Round32Exactly(l.v2, l.v2, At32(a, p + 4), At32(b, q + 4));
    Round32Exactly(l.v3, l.v3, At32(a, p + 8), At32(b, q + 8));
    Round32Exactly(l.v4, l.v4, At32(a, p + 12), At32(b, q + 12));
    Word32Exactly(a, b, p, q); Word32Exactly(a, b, p + 4, q + 4);
    Word32Exactly(a, b, p + 8, q + 8); Word32Exactly(a, b, p + 12, q + 12);
    Quarters(a[p..p + 16], b[q..q + 16], 4);
    Parts(a, p, 4); Parts(b, q, 4);
  }

  lemma Parts<T>(a: seq<T>, p: nat, n: nat)
    requires p + 4 * n <= |a|
    ensures var s := a[p..p + 4 * n];
            && s[..n] == a[p..p + n] && s[n..2 * n] == a[p + n..p + 2 * n]
            && s[2 * n..3 * n] == a[p + 2 * n..p + 3 * n] && s[3 * n..] == a[p + 3 * n..p + 4 * n]
  {
    Xxh64.SliceOfSlice(a, p, 4 * n, 0, n); Xxh64.SliceOfSlice(a, p, 4 * n, n, n);
    Xxh64.SliceOfSlice(a, p, 4 * n, 2 * n, n); Xxh64.SliceOfSlice(a, p, 4 * n, 3 * n, n);
  }

  lemma Quarters<T>(s: seq<T>, t: seq<T>, n: nat)
    requires |s| == |t| == 4 * n
    ensures s == t <==> s[..n] == t[..n] && s[n..2 * n] == t[n..2 * n]
                        && s[2 * n..3 * n] == t[2 * n..3 * n] && s[3 * n..] == t[3 * n..]
  {
    assert s == s[..n] + s[n..2 * n] + s[2 * n..3 * n] + s[3 * n..];
    assert t == t[..n] + t[n..2 * n] + t[2 * n..3 * n] + t[3 * n..];
  }

  // ---- XXH32, one byte ----------------------------------------------------------------

  function Lane32(l: Xxh32.Lanes32, k: nat): u32
    requires k < 4
  {
    if k == 0 then l.v1 else if k == 1 then l.v2 else if k == 2 then l.v3 else l.v4
  }

  predicate OnlyLane32(l: Xxh32.Lanes32, m: Xxh32.Lanes32, k: nat)
  {
    k < 4 && forall j :: 0 <= j < 4 ==> (Lane32(l, j) == Lane32(m, j) <==> j != k)
  }

  lemma LaneOfStripe32(l: Xxh32.Lanes32, a: seq<u8>, p: nat, k: nat)
    requires p + 16 <= |a| && k < 4
    ensures Lane32(Xxh32.RoundStripe32(l, a, p), k) == Xxh32.Round32(Lane32(l, k), At32(a, p + 4 * k))
  {
    hide Xxh32.Round32, At32;
  }

  /** The changed lane is that of the changed byte, ... */
  lemma StripeChanges32(l: Xxh32.Lanes32, a: seq<u8>, b: seq<u8>, p: nat, i: nat)
    requires OneByte(a, b, i) && p <= i < p + 16 <= |a|
    ensures OnlyLane32(Xxh32.RoundStripe32(l, a, p), Xxh32.RoundStripe32(l, b, p), (i - p) / 4)
  {
    var l', m' := Xxh32.RoundStripe32(l, a, p), Xxh32.RoundStripe32(l, b, p);
    hide Xxh32.Round32, At32, Lane32, OneByte, Xxh32.RoundStripe32;
    forall j | 0 <= j < 4 ensures Lane32(l', j) == Lane32(m', j) <==> j != (i - p) / 4 {
      LaneOfStripe32(l, a, p, j); LaneOfStripe32(l, b, p, j);
      Round32Exactly(Lane32(l, j), Lane32(l, j), At32(a, p + 4 * j), At32(b, p + 4 * j));
      SameLength(a, b, i);
      Word32Exactly(a, b, p + 4 * j, p + 4 * j);
      SliceChanges(a, b, i, p + 4 * j, 4);
    }
  }

  lemma SameLength(a: seq<u8>, b: seq<u8>, i: nat)
    requires OneByte(a, b, i)
    ensures |a| == |b| && i < |a|
  {
  }

  /** ... and it stays the only one. */
  lemma StripeKeeps32(l: Xxh32.Lanes32, m: Xxh32.Lanes32, a: seq<u8>, b: seq<u8>, p: nat, k: nat)
    requires p + 16 <= |a| && |a| == |b| && a[p..p + 16] == b[p..p + 16] && OnlyLane32(l, m, k)
    ensures OnlyLane32(Xxh32.RoundStripe32(l, a, p), Xxh32.RoundStripe32(m, b, p), k)
  {
    var l', m' := Xxh32.RoundStripe32(l, a, p), Xxh32.RoundStripe32(m, b, p);
    hide Xxh32.Round32, At32, Lane32, Xxh32.RoundStripe32;
    forall j | 0 <= j < 4 ensures Lane32(l', j) == Lane32(m', j) <==> j != k {
      LaneOfStripe32(l, a, p, j); LaneOfStripe32(m, b, p, j);
      Xxh32.WordOfSlice32(a, b, p, p, 4 * j);
      Round32Exactly(Lane32(l, j), Lane32(m, j), At32(a, p + 4 * j), At32(b, p + 4 * j));
    }
  }

  function LaneNumber32(i: nat): nat { i % 16 / 4 }

  lemma LaneInStripe32(i: nat, n: nat)
    requires n > 0 && 16 * (n - 1) <= i < 16 * n
    ensures LaneNumber32(i) == (i - 16 * (n - 1)) / 4
  {
    DivUnique(i, 16, n - 1, i - 16 * (n - 1));
  }

  /** What two folds have in common before and after a stripe at p: only the lane of a changed byte differs. */
  ghost predicate Follow32(l: Xxh32.Lanes32, m: Xxh32.Lanes32, i: nat, p: nat)
  {
    if i < p then OnlyLane32(l, m, LaneNumber32(i)) else l == m
  }

  lemma StripeFollows32(l: Xxh32.Lanes32, m: Xxh32.Lanes32, a: seq<u8>, b: seq<u8>, i: nat, n: nat)
    requires OneByte(a, b, i) && n > 0 && 16 * n <= |a| && Follow32(l, m, i, 16 * (n - 1))
    ensures |a| == |b|
    ensures Follow32(Xxh32.RoundStripe32(l, a, 16 * (n - 1)), Xxh32.RoundStripe32(m, b, 16 * (n - 1)), i, 16 * n)
  {
    var p := 16 * (n - 1);
    SameLength(a, b, i);
    hide OneByte, Xxh32.RoundStripe32, OnlyLane32, LaneNumber32;
    SliceChanges(a, b, i, p, 16);
    if i < p {
      StripeKeeps32(l, m, a, b, p, LaneNumber32(i));
    } else if i < 16 * n {
      LaneInStripe32(i, n);
      StripeChanges32(l, a, b, p, i);
    } else {
      Xxh32.StripeOfSlice32(l, a, b, p, p);
    }
  }

  lemma {:induction false} FoldChanges32(seed: u32, a: seq<u8>, b: seq<u8>, i: nat, n: nat)
    requires OneByte(a, b, i) && 16 * n <= |a|
    ensures |a| == |b|
    ensures var l, m := Xxh32.FoldStripes32(seed, a, n), Xxh32.FoldStripes32(seed, b, n);
            if i < 16 * n then OnlyLane32(l, m, LaneNumber32(i)) else l == m
  {
    SameLength(a, b, i);
    hide OneByte, Xxh32.RoundStripe32, OnlyLane32;
    if n > 0 {
      FoldChanges32(seed, a, b, i, n - 1);
      StripeFollows32(Xxh32.FoldStripes32(seed, a, n - 1), Xxh32.FoldStripes32(seed, b, n - 1), a, b, i, n);
    }
  }

  lemma ConvergeChanges32(l: Xxh32.Lanes32, m: Xxh32.Lanes32, k: nat)
    requires OnlyLane32(l, m, k)
    ensures Xxh32.Converge32(l) != Xxh32.Converge32(m)
  {
    assert forall j :: 0 <= j < 4 ==> (Lane32(l, j) == Lane32(m, j) <==> j != k);
    assert (l.v1 != m.v1) == (k == 0) by { assert Lane32(l, 0) == l.v1; }
    assert (l.v2 != m.v2) == (k == 1) by { assert Lane32(l, 1) == l.v2; }
    assert (l.v3 != m.v3) == (k == 2) by { assert Lane32(l, 2) == l.v3; }
    assert (l.v4 != m.v4) == (k == 3) by { assert Lane32(l, 3) == l.v4; }
    hide Rotl32, OnlyLane32, Lane32, Add32;
    if k == 0 { SumChanges32(l.v1, m.v1, 1, Rotl32(l.v2, 7), Rotl32(l.v3, 12), Rotl32(l.v4, 18)); }
    else if k == 1 { SumChanges32(l.v2, m.v2, 7, Rotl32(l.v1, 1), Rotl32(l.v3, 12), Rotl32(l.v4, 18)); }
    else if k == 2 { SumChanges32(l.v3, m.v3, 12, Add32(Rotl32(l.v1, 1), Rotl32(l.v2, 7)), Rotl32(l.v4, 18), 0); }
    else { SumChanges32(l.v4, m.v4, 18, Add32(Add32(Rotl32(l.v1, 1), Rotl32(l.v2, 7)), Rotl32(l.v3, 12)), 0, 0); }
  }

  lemma SumChanges32(x: u32, y: u32, r: nat, a: u32, b: u32, c: u32)
    requires x != y && r <= 32
    ensures Add32(Add32(Add32(Rotl32(x, r), a), b), c) != Add32(Add32(Add32(Rotl32(y, r), a), b), c)
    ensures Add32(Add32(Add32(a, Rotl32(x, r)), b), c) != Add32(Add32(Add32(a, Rotl32(y, r)), b), c)
    ensures Add32(Add32(a, Rotl32(x, r)), b) != Add32(Add32(a, Rotl32(y, r)), b)
    ensures Add32(a, Rotl32(x, r)) != Add32(a, Rotl32(y, r))
  {
    var p, q := Rotl32(x, r), Rotl32(y, r);
    assert p != q by { if p == q { Rotl32Injective(x, y, r); } }
    hide Rotl32, Add32;
    OneSum32(p, q, a);
    OneSum32(Add32(p, a), Add32(q, a), b); OneSum32(Add32(a, p), Add32(a, q), b);
    OneSum32(Add32(Add32(p, a), b), Add32(Add32(q, a), b), c);
    OneSum32(Add32(Add32(a, p), b), Add32(Add32(a, q), b), c);
  }

  lemma OneSum32(p: u32, q: u32, a: u32)
    requires p != q
    ensures Add32(p, a) != Add32(q, a) && Add32(a, p) != Add32(a, q)
  {
  }

  /** A piece of the rest loses neither the hash so far nor its word. */
  lemma Process4Exactly(h: u32, g: u32, v: u32, w: u32)
    requires h == g || v == w
    ensures Xxh32.Process4(h, v) == Xxh32.Process4(g, w) <==> h == g && v == w
  {
    assert (PRIME32_3 * PRIME32_3_INV) % 0x1_0000_0000 == 1 && (Xxh32.PRIME32_4 * PRIME32_4_INV) % 0x1_0000_0000 == 1;
    var x, y := Mul32(v, PRIME32_3), Mul32(w, PRIME32_3);
    if Xxh32.Process4(h, v) == Xxh32.Process4(g, w) {
      hide Mul32, Add32, Rotl32;
      Mul32Injective(Rotl32(Add32(h, x), 17), Rotl32(Add32(g, y), 17), Xxh32.PRIME32_4, PRIME32_4_INV);
      Rotl32Injective(Add32(h, x), Add32(g, y), 17);
      if h == g {
        Add32Injective(x, y, h);
        Mul32Injective(v, w, PRIME32_3, PRIME32_3_INV);
      } else {
        Add32Injective(h, g, x);
      }
    }
  }

  lemma Process1Exactly(h: u32, g: u32, v: u8, w: u8)
    requires h == g || v == w
    ensures Xxh32.Process1(h, v) == Xxh32.Process1(g, w) <==> h == g && v == w
  {
    assert (PRIME32_1 * PRIME32_1_INV) % 0x1_0000_0000 == 1;
    assert (Xxh32.PRIME32_5 * PRIME32_5_INV) % 0x1_0000_0000 == 1;
    var x, y := Mul32(v, Xxh32.PRIME32_5), Mul32(w, Xxh32.PRIME32_5);
    if Xxh32.Process1(h, v) == Xxh32.Process1(g, w) {
      hide Mul32, Add32, Rotl32;
      Mul32Injective(Rotl32(Add32(h, x), 11), Rotl32(Add32(g, y), 11), PRIME32_1, PRIME32_1_INV);
      Rotl32Injective(Add32(h, x), Add32(g, y), 11);
      if h == g {
        Add32Injective(x, y, h);
        Mul32Injective(v, w, Xxh32.PRIME32_5, PRIME32_5_INV);
      } else {
        Add32Injective(h, g, x);
      }
    }
  }

  lemma {:induction false} RestKeeps32(h: u32, g: u32, rest: seq<u8>)
    requires h != g
    ensures Xxh32.ConsumeRest32(h, rest) != Xxh32.ConsumeRest32(g, rest)
    decreases |rest|
  {
    hide Xxh32.Process4, Xxh32.Process1, At32;
    if |rest| >= 4 {
      Process4Exactly(h, g, At32(rest, 0), At32(rest, 0));
      RestKeeps32(Xxh32.Process4(h, At32(rest, 0)), Xxh32.Process4(g, At32(rest, 0)), rest[4..]);
    } else if |rest| > 0 {
      Process1Exactly(h, g, rest[0], rest[0]);
      RestKeeps32(Xxh32.Process1(h, rest[0]), Xxh32.Process1(g, rest[0]), rest[1..]);
    }
  }

  lemma TailChanges(a: seq<u8>, b: seq<u8>, i: nat, n: nat)
    requires OneByte(a, b, i) && n <= |a|
    ensures |a| == |b| && (if n <= i then OneByte(a[n..], b[n..], i - n) else a[n..] == b[n..])
    ensures 0 < n <= i ==> a[0] == b[0]
  {
  }

  lemma {:induction false} RestChanges32(h: u32, a: seq<u8>, b: seq<u8>, i: nat)
    requires OneByte(a, b, i)
    ensures Xxh32.ConsumeRest32(h, a) != Xxh32.ConsumeRest32(h, b)
    decreases |a|
  {
    SameLength(a, b, i);
    if |a| >= 4 {
      TailChanges(a, b, i, 4);
      SliceChanges(a, b, i, 0, 4);
      hide OneByte, Xxh32.Process4, Xxh32.Process1, At32;
      Word32Exactly(a, b, 0, 0);
      if i < 4 {
        Process4Exactly(h, h, At32(a, 0), At32(b, 0));
        RestKeeps32(Xxh32.Process4(h, At32(a, 0)), Xxh32.Process4(h, At32(b, 0)), a[4..]);
      } else {
        RestChanges32(Xxh32.Process4(h, At32(a, 0)), a[4..], b[4..], i - 4);
      }
    } else {
      TailChanges(a, b, i, 1);
      assert a[0] == b[0] <==> i != 0;
      hide OneByte, Xxh32.Process4, Xxh32.Process1, At32;
      if i == 0 {
        Process1Exactly(h, h, a[0], b[0]);
        RestKeeps32(Xxh32.Process1(h, a[0]), Xxh32.Process1(h, b[0]), a[1..]);
      } else {
        RestChanges32(Xxh32.Process1(h, a[0]), a[1..], b[1..], i - 1);
      }
    }
  }

  // ---- the XXH32 avalanche ------------------------------------------------------------

  lemma XorShift32Injective(x: u32, y: u32, s: nat)
    requires s >= 11 && XorShift32(x, s) == XorShift32(y, s)
    ensures x == y
  {
    ThirdShiftGone(x, s); ThirdShiftGone(y, s);
  }

  lemma ThirdShiftGone(x: u32, s: nat)
    requires s >= 11
    ensures Xor(Xor(XorShift32(x, s), Shr(XorShift32(x, s), s)), Shr(XorShift32(x, s), s + s)) == x
  {
    hide Shr, Xor;
    var x1, x2, x3 := Shr(x, s), Shr(x, s + s), Shr(x, s + s + s);
    var y := Xor(x, x1);
    ShrXor(x, x1, s); ShrShr(x, s, s);
    ShrXor(x, x1, s + s); ShrShr(x, s, s + s);
    assert x3 == 0 by { Pow2Literals(); ShrGone(x, 32); ShrShr(x, 32, s + s + s - 32); ShrOfNothing(s + s + s - 32); }
    assert Shr(y, s) == Xor(x1, x2) && Shr(y, s + s) == Xor(x2, x3);
    XorZero(x2);
    XorAssoc(x, x1, Xor(x1, x2)); XorAssoc(x1, x1, x2); XorSelf(x1); XorComm(0, x2); XorZero(x2);
    assert Xor(y, Xor(x1, x2)) == Xor(x, x2);
    XorCancel(x, x2);
  }

  lemma {:induction false} ShrOfNothing(s: nat)
    ensures Shr(0, s) == 0
  {
    if s > 0 { ShrOfNothing(s - 1); }
  }

  lemma Inverses32()
    ensures (PRIME32_2 * PRIME32_2_INV) % 0x1_0000_0000 == 1 && (PRIME32_3 * PRIME32_3_INV) % 0x1_0000_0000 == 1
  {
  }

  lemma Avalanche32Injective(h: u32, g: u32)
    requires Xxh32.Avalanche32(h) == Xxh32.Avalanche32(g)
    ensures h == g
  {
    hide Mul32, XorShift32, Xor, Shr;
    Inverses32();
    var x, y := XorShift32(h, 15), XorShift32(g, 15);
    var a, b := Mul32(x, PRIME32_2), Mul32(y, PRIME32_2);
    var v, w := XorShift32(a, 13), XorShift32(b, 13);
    XorShift32Injective(Mul32(v, PRIME32_3), Mul32(w, PRIME32_3), 16);
    Mul32Injective(v, w, PRIME32_3, PRIME32_3_INV);
    XorShift32Injective(a, b, 13);
    Mul32Injective(x, y, PRIME32_2, PRIME32_2_INV);
    XorShift32Injective(h, g, 15);
  }

  /** The hash before the rest. */
  function Start32(seed: u32, data: seq<u8>): u32
  {
    var n := |data| / 16;
    var h := if n > 0 then Xxh32.Converge32(Xxh32.FoldStripes32(seed, data, n)) else Add32(seed, Xxh32.PRIME32_5);
    Add32(h, |data| % 0x1_0000_0000)
  }

  lemma StartChanges32(a: seq<u8>, b: seq<u8>, i: nat, seed: u32)
    requires OneByte(a, b, i)
    ensures Start32(seed, a) == Start32(seed, b) <==> 16 * (|a| / 16) <= i
  {
    var n := |a| / 16;
    SameLength(a, b, i);
    FoldChanges32(seed, a, b, i, n);
    hide OneByte, Xxh32.Converge32, Xxh32.FoldStripes32, OnlyLane32, Add32;
    if i < 16 * n {
      var l, m := Xxh32.FoldStripes32(seed, a, n), Xxh32.FoldStripes32(seed, b, n);
      ConvergeChanges32(l, m, LaneNumber32(i));
      OneSum32(Xxh32.Converge32(l), Xxh32.Converge32(m), |a| % 0x1_0000_0000);
    }
  }

  lemma HashFromStart32(data: seq<u8>, seed: u32)
    ensures Xxh32.Hash32(data, seed)
         == Xxh32.Avalanche32(Xxh32.ConsumeRest32(Start32(seed, data), data[16 * (|data| / 16)..]))
  {
    hide Xxh32.Avalanche32, Xxh32.ConsumeRest32, Xxh32.Converge32, Xxh32.FoldStripes32, Add32;
  }

  lemma TailsDiffer32(h: u32, g: u32, a: seq<u8>, b: seq<u8>, i: nat, p: nat)
    requires OneByte(a, b, i) && p <= |a| && (h == g <==> p <= i)
    ensures |a| == |b| && Xxh32.ConsumeRest32(h, a[p..]) != Xxh32.ConsumeRest32(g, b[p..])
  {
    SameLength(a, b, i);
    TailChanges(a, b, i, p);
    hide OneByte, Xxh32.ConsumeRest32;
    if i < p { RestKeeps32(h, g, a[p..]); } else { RestChanges32(h, a[p..], b[p..], i - p); }
  }

  /** Changing one byte always changes the XXH32 hash, whatever the length of the input and the seed. */
  lemma OneByteChanges32(a: seq<u8>, b: seq<u8>, i: nat, seed: u32)
    requires OneByte(a, b, i)
    ensures Xxh32.Hash32(a, seed) != Xxh32.Hash32(b, seed)
  {
    var p := 16 * (|a| / 16);
    SameLength(a, b, i);
    hide OneByte, Start32, Xxh32.Hash32, Xxh32.Avalanche32, Xxh32.ConsumeRest32;
    StartChanges32(a, b, i, seed);
    TailsDiffer32(Start32(seed, a), Start32(seed, b), a, b, i, p);
    HashFromStart32(a, seed); HashFromStart32(b, seed);
    if Xxh32.Hash32(a, seed) == Xxh32.Hash32(b, seed) {
      Avalanche32Injective(Xxh32.ConsumeRest32(Start32(seed, a), a[p..]),
                           Xxh32.ConsumeRest32(Start32(seed, b), b[p..]));
    }
  }

  // ---- XXH64 --------------------------------------------------------------------------

  lemma Inverses64()
    ensures (PRIME64_1 * PRIME64_1_INV) % 0x1_0000_0000_0000_0000 == 1
    ensures (PRIME64_2 * PRIME64_2_INV) % 0x1_0000_0000_0000_0000 == 1
    ensures (PRIME64_5 * PRIME64_5_INV) % 0x1_0000_0000_0000_0000 == 1
  {
  }

  lemma RoundExactly(a: u64, b: u64, v: u64, w: u64)
    requires a == b || v == w
    ensures Xxh64.Round(a, v) == Xxh64.Round(b, w) <==> a == b && v == w
  {
    var x, y := Mul64(v, PRIME64_2), Mul64(w, PRIME64_2);
    if Xxh64.Round(a, v) == Xxh64.Round(b, w) {
      hide Mul64, Add64, Rotl64;
      Inverses64();
      Mul64Injective(Rotl64(Add64(a, x), 31), Rotl64(Add64(b, y), 31), PRIME64_1, PRIME64_1_INV);
      Rotl64Injective(Add64(a, x), Add64(b, y), 31);
      if a == b {
        Add64Injective(x, y, a);
        Mul64Injective(v, w, PRIME64_2, PRIME64_2_INV);
      } else {
        Add64Injective(a, b, x);
      }
    }
  }

  lemma WordExactly(a: seq<u8>, b: seq<u8>, p: nat, q: nat)
    requires p + 8 <= |a| && q + 8 <= |b|
    ensures At64(a, p) == At64(b, q) <==> a[p..p + 8] == b[q..q + 8]
  {
    hide WriteLE64, ReadLE;
    WriteAt64(a, p); WriteAt64(b, q);
    if a[p..p + 8] == b[q..q + 8] { assert a[p..][..8] == a[p..p + 8] == b[q..q + 8] == b[q..][..8]; }
  }

  /** From the same lanes, other bytes give other lanes. */
  lemma StripeExactly(l: Xxh64.Lanes, a: seq<u8>, b: seq<u8>, p: nat, q: nat)
    requires p + 32 <= |a| && q + 32 <= |b|
    ensures Xxh64.RoundStripe(l, a, p) == Xxh64.RoundStripe(l, b, q) <==> a[p..p + 32] == b[q..q + 32]
  {
    hide Xxh64.Round, At64;
    RoundExactly(l.v1, l.v1, At64(a, p), At64(b, q));
    RoundExactly(l.v2, l.v2, At64(a, p + 8), At64(b, q + 8));
    RoundExactly(l.v3, l.v3, At64(a, p + 16), At64(b, q + 16));
    RoundExactly(l.v4, l.v4, At64(a, p + 24), At64(b, q + 24));
    WordExactly(a, b, p, q); WordExactly(a, b, p + 8, q + 8);
    WordExactly(a, b, p + 16, q + 16); WordExactly(a, b, p + 24, q + 24);
    Quarters(a[p..p + 32], b[q..q + 32], 8);
    Parts(a, p, 8); Parts(b, q, 8);
  }

  function LaneOf(l: Xxh64.Lanes, k: nat): u64
    requires k < 4
  {
    if k == 0 then l.v1 else if k == 1 then l.v2 else if k == 2 then l.v3 else l.v4
  }

  predicate OnlyLane(l: Xxh64.Lanes, m: Xxh64.Lanes, k: nat)
  {
    k < 4 && forall j :: 0 <= j < 4 ==> (LaneOf(l, j) == LaneOf(m, j) <==> j != k)
  }

  lemma LaneOfStripe(l: Xxh64.Lanes, a: seq<u8>, p: nat, k: nat)
    requires p + 32 <= |a| && k < 4
    ensures LaneOf(Xxh64.RoundStripe(l, a, p), k) == Xxh64.Round(LaneOf(l, k), At64(a, p + 8 * k))
  {
    hide Xxh64.Round, At64;
  }

  lemma StripeChanges(l: Xxh64.Lanes, a: seq<u8>, b: seq<u8>, p: nat, i: nat)
    requires OneByte(a, b, i) && p <= i < p + 32 <= |a|
    ensures OnlyLane(Xxh64.RoundStripe(l, a, p), Xxh64.RoundStripe(l, b, p), (i - p) / 8)
  {
    var l', m' := Xxh64.RoundStripe(l, a, p), Xxh64.RoundStripe(l, b, p);
    hide Xxh64.Round, At64, LaneOf, OneByte, Xxh64.RoundStripe;
    forall j | 0 <= j < 4 ensures LaneOf(l', j) == LaneOf(m', j) <==> j != (i - p) / 8 {
      LaneOfStripe(l, a, p, j); LaneOfStripe(l, b, p, j);
      RoundExactly(LaneOf(l, j), LaneOf(l, j), At64(a, p + 8 * j), At64(b, p + 8 * j));
      SameLength(a, b, i);
      WordExactly(a, b, p + 8 * j, p + 8 * j);
      SliceChanges(a, b, i, p + 8 * j, 8);
    }
  }

  lemma StripeKeeps(l: Xxh64.Lanes, m: Xxh64.Lanes, a: seq<u8>, b: seq<u8>, p: nat, k: nat)
    requires p + 32 <= |a| && |a| == |b| && a[p..p + 32] == b[p..p + 32] && OnlyLane(l, m, k)
    ensures OnlyLane(Xxh64.RoundStripe(l, a, p), Xxh64.RoundStripe(m, b, p), k)
  {
    var l', m' := Xxh64.RoundStripe(l, a, p), Xxh64.RoundStripe(m, b, p);
    hide Xxh64.Round, At64, LaneOf, Xxh64.RoundStripe;
    forall j | 0 <= j < 4 ensures LaneOf(l', j) == LaneOf(m', j) <==> j != k {
      LaneOfStripe(l, a, p, j); LaneOfStripe(m, b, p, j);
      Xxh64.WordOfSlice(a, b, p, p, 8 * j);
      RoundExactly(LaneOf(l, j), LaneOf(m, j), At64(a, p + 8 * j), At64(b, p + 8 * j));
    }
  }

  function LaneNumber(i: nat): nat { i % 32 / 8 }

  lemma LaneInStripe(i: nat, n: nat)
    requires n > 0 && 32 * (n - 1) <= i < 32 * n
    ensures LaneNumber(i) == (i - 32 * (n - 1)) / 8
  {
    DivUnique(i, 32, n - 1, i - 32 * (n - 1));
  }

  /** What two folds have in common before and after a stripe at p: only the lane of a changed byte differs. */
  ghost predicate Follow(l: Xxh64.Lanes, m: Xxh64.Lanes, i: nat, p: nat)
  {
    if i < p then OnlyLane(l, m, LaneNumber(i)) else l == m
  }

  lemma StripeFollows(l: Xxh64.Lanes, m: Xxh64.Lanes, a: seq<u8>, b: seq<u8>, i: nat, n: nat)
    requires OneByte(a, b, i) && n > 0 && 32 * n <= |a| && Follow(l, m, i, 32 * (n - 1))
    ensures |a| == |b|
    ensures Follow(Xxh64.RoundStripe(l, a, 32 * (n - 1)), Xxh64.RoundStripe(m, b, 32 * (n - 1)), i, 32 * n)
  {
    var p := 32 * (n - 1);
    SameLength(a, b, i);
    hide OneByte, Xxh64.RoundStripe, OnlyLane, LaneNumber;
    SliceChanges(a, b, i, p, 32);
    if i < p {
      StripeKeeps(l, m, a, b, p, LaneNumber(i));
    } else if i < 32 * n {
      LaneInStripe(i, n);
      StripeChanges(l, a, b, p, i);
    } else {
      Xxh64.StripeOfSlice(l, a, b, p, p);
    }
  }

  /** Changing one byte of the stripes changes one of the four lanes that they leave, and only that one. */
  lemma {:induction false} FoldChanges(seed: u64, a: seq<u8>, b: seq<u8>, i: nat, n: nat)
    requires OneByte(a, b, i) && 32 * n <= |a|
    ensures |a| == |b|
    ensures var l, m := Xxh64.FoldStripes(seed, a, n), Xxh64.FoldStripes(seed, b, n);
            if i < 32 * n then OnlyLane(l, m, LaneNumber(i)) else l == m
  {
    SameLength(a, b, i);
    hide OneByte, Xxh64.RoundStripe, OnlyLane;
    if n > 0 {
      FoldChanges(seed, a, b, i, n - 1);
      StripeFollows(Xxh64.FoldStripes(seed, a, n - 1), Xxh64.FoldStripes(seed, b, n - 1), a, b, i, n);
    }
  }

  lemma Mix8Exactly(h: u64, g: u64, v: u64, w: u64)
    requires h == g || v == w
    ensures Xxh64.Mix8(h, v) == Xxh64.Mix8(g, w) <==> h == g && v == w
  {
    var x, y := Xxh64.Round(0, v), Xxh64.Round(0, w);
    if Xxh64.Mix8(h, v) == Xxh64.Mix8(g, w) {
      hide Mul64, Add64, Rotl64, Xor64, Xxh64.Round;
      Inverses64();
      var p, q := Rotl64(Xor64(h, x), 27), Rotl64(Xor64(g, y), 27);
      Add64Injective(Mul64(p, PRIME64_1), Mul64(q, PRIME64_1), PRIME64_4);
      Mul64Injective(p, q, PRIME64_1, PRIME64_1_INV);
      Rotl64Injective(Xor64(h, x), Xor64(g, y), 27);
      if h == g {
        Xor64Injective(x, y, h);
        RoundExactly(0, 0, v, w);
      } else {
        Xor64Injective(h, g, x);
      }
    }
  }

  lemma Mix4Exactly(h: u64, g: u64, v: u32, w: u32)
    requires h == g || v == w
    ensures Xxh64.Mix4(h, v) == Xxh64.Mix4(g, w) <==> h == g && v == w
  {
    var x, y := Mul64(v, PRIME64_1), Mul64(w, PRIME64_1);
    if Xxh64.Mix4(h, v) == Xxh64.Mix4(g, w) {
      hide Mul64, Add64, Rotl64, Xor64;
      Inverses64();
      var p, q := Rotl64(Xor64(h, x), 23), Rotl64(Xor64(g, y), 23);
      Add64Injective(Mul64(p, PRIME64_2), Mul64(q, PRIME64_2), PRIME64_3);
      Mul64Injective(p, q, PRIME64_2, PRIME64_2_INV);
      Rotl64Injective(Xor64(h, x), Xor64(g, y), 23);
      if h == g {
        Xor64Injective(x, y, h);
        Mul64Injective(v, w, PRIME64_1, PRIME64_1_INV);
      } else {
        Xor64Injective(h, g, x);
      }
    }
  }

  lemma Mix1Exactly(h: u64, g: u64, v: u8, w: u8)
    requires h == g || v == w
    ensures Xxh64.Mix1(h, v) == Xxh64.Mix1(g, w) <==> h == g && v == w
  {
    var x, y := Mul64(v, PRIME64_5), Mul64(w, PRIME64_5);
    if Xxh64.Mix1(h, v) == Xxh64.Mix1(g, w) {
      hide Mul64, Rotl64, Xor64;
      Inverses64();
      Mul64Injective(Rotl64(Xor64(h, x), 11), Rotl64(Xor64(g, y), 11), PRIME64_1, PRIME64_1_INV);
      Rotl64Injective(Xor64(h, x), Xor64(g, y), 11);
      if h == g {
        Xor64Injective(x, y, h);
        Mul64Injective(v, w, PRIME64_5, PRIME64_5_INV);
      } else {
        Xor64Injective(h, g, x);
      }
    }
  }

  lemma {:induction false} RestKeeps(h: u64, g: u64, rest: seq<u8>)
    requires h != g
    ensures Xxh64.ConsumeRest(h, rest) != Xxh64.ConsumeRest(g, rest)
    decreases |rest|
  {
    hide Xxh64.Mix8, Xxh64.Mix4, Xxh64.Mix1, At64, At32;
    if |rest| >= 8 {
      Mix8Exactly(h, g, At64(rest, 0), At64(rest, 0));
      RestKeeps(Xxh64.Mix8(h, At64(rest, 0)), Xxh64.Mix8(g, At64(rest, 0)), rest[8..]);
    } else if |rest| >= 4 {
      Mix4Exactly(h, g, At32(rest, 0), At32(rest, 0));
      RestKeeps(Xxh64.Mix4(h, At32(rest, 0)), Xxh64.Mix4(g, At32(rest, 0)), rest[4..]);
    } else if |rest| > 0 {
      Mix1Exactly(h, g, rest[0], rest[0]);
      RestKeeps(Xxh64.Mix1(h, rest[0]), Xxh64.Mix1(g, rest[0]), rest[1..]);
    }
  }

  lemma {:induction false} RestChanges(h: u64, a: seq<u8>, b: seq<u8>, i: nat)
    requires OneByte(a, b, i)
    ensures Xxh64.ConsumeRest(h, a) != Xxh64.ConsumeRest(h, b)
    decreases |a|
  {
    SameLength(a, b, i);
    if |a| >= 8 {
      TailChanges(a, b, i, 8);
      SliceChanges(a, b, i, 0, 8);
      hide OneByte, Xxh64.Mix8, Xxh64.Mix4, Xxh64.Mix1, At64, At32;
      WordExactly(a, b, 0, 0);
      if i < 8 {
        Mix8Exactly(h, h, At64(a, 0), At64(b, 0));
        RestKeeps(Xxh64.Mix8(h, At64(a, 0)), Xxh64.Mix8(h, At64(b, 0)), a[8..]);
      } else {
        RestChanges(Xxh64.Mix8(h, At64(a, 0)), a[8..], b[8..], i - 8);
      }
    } else if |a| >= 4 {
      TailChanges(a, b, i, 4);
      SliceChanges(a, b, i, 0, 4);
      hide OneByte, Xxh64.Mix8, Xxh64.Mix4, Xxh64.Mix1, At64, At32;
      Word32Exactly(a, b, 0, 0);
      if i < 4 {
        Mix4Exactly(h, h, At32(a, 0), At32(b, 0));
        RestKeeps(Xxh64.Mix4(h, At32(a, 0)), Xxh64.Mix4(h, At32(b, 0)), a[4..]);
      } else {
        RestChanges(Xxh64.Mix4(h, At32(a, 0)), a[4..], b[4..], i - 4);
      }
    } else {
      TailChanges(a, b, i, 1);
      assert a[0] == b[0] <==> i != 0;
      hide OneByte, Xxh64.Mix8, Xxh64.Mix4, Xxh64.Mix1, At64, At32;
      if i == 0 {
        Mix1Exactly(h, h, a[0], b[0]);
        RestKeeps(Xxh64.Mix1(h, a[0]), Xxh64.Mix1(h, b[0]), a[1..]);
      } else {
        RestChanges(Xxh64.Mix1(h, a[0]), a[1..], b[1..], i - 1);
      }
    }
  }

  function Start(seed: u64, data: seq<u8>): u64
  {
    var n := |data| / 32;
    var h := if n > 0 then Xxh64.Converge(Xxh64.FoldStripes(seed, data, n)) else Add64(seed, PRIME64_5);
    Add64(h, |data| % 0x1_0000_0000_0000_0000)
  }

  lemma StartStays(a: seq<u8>, b: seq<u8>, i: nat, seed: u64)
    requires OneByte(a, b, i) && 32 * (|a| / 32) <= i
    ensures Start(seed, a) == Start(seed, b)
  {
    SameLength(a, b, i);
    FoldChanges(seed, a, b, i, |a| / 32);
    hide OneByte, Xxh64.Converge, Xxh64.FoldStripes, OnlyLane;
  }

  lemma HashFromStart(data: seq<u8>, seed: u64)
    ensures Xxh64.Hash(data, seed)
         == Xxh64Avalanche(Xxh64.ConsumeRest(Start(seed, data), data[32 * (|data| / 32)..]))
  {
    hide Xxh64Avalanche, Xxh64.ConsumeRest, Xxh64.Converge, Xxh64.FoldStripes, Add64;
  }

  lemma XxhAvalancheExactly(h: u64, g: u64)
    ensures Xxh64Avalanche(h) == Xxh64Avalanche(g) <==> h == g
  {
    hide Xxh64Avalanche, UnXxh64Avalanche;
    Xxh64AvalancheInverse(h); Xxh64AvalancheInverse(g);
  }

  lemma TailsDiffer(h: u64, a: seq<u8>, b: seq<u8>, i: nat, p: nat)
    requires OneByte(a, b, i) && p <= i
    ensures |a| == |b| && p <= |a| && Xxh64.ConsumeRest(h, a[p..]) != Xxh64.ConsumeRest(h, b[p..])
  {
    SameLength(a, b, i);
    TailChanges(a, b, i, p);
    hide OneByte, Xxh64.ConsumeRest;
    RestChanges(h, a[p..], b[p..], i - p);
  }

  /** Changing one byte after the last whole stripe always changes the XXH64 hash; for inputs of less than 32
      bytes that is any byte. */
  lemma OneByteChanges64(a: seq<u8>, b: seq<u8>, i: nat, seed: u64)
    requires OneByte(a, b, i) && 32 * (|a| / 32) <= i
    ensures Xxh64.Hash(a, seed) != Xxh64.Hash(b, seed)
  {
    hide OneByte, Start, Xxh64.Hash, Xxh64Avalanche, Xxh64.ConsumeRest;
    var p := 32 * (|a| / 32);
    SameLength(a, b, i);
    StartStays(a, b, i, seed);
    HashFromStart(a, seed); HashFromStart(b, seed);
    TailsDiffer(Start(seed, a), a, b, i, p);
    XxhAvalancheExactly(Xxh64.ConsumeRest(Start(seed, a), a[p..]), Xxh64.ConsumeRest(Start(seed, a), b[p..]));
  }
}
