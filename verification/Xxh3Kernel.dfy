/** The XXH3 stripe kernels.  `Accumulate512` and `Scramble` say what a kernel computes, one lane
    at a time; the scalar loops and the 128-bit SIMD loops are shown to compute exactly that. */
module Xxh3Kernel {
  import opened Words

  const PRIME32_1: u32 := 0x9E3779B1
  const PRIME32_2: u32 := 0x85EBCA77
  const PRIME32_3: u32 := 0xC2B2AE3D
  const PRIME64_1: u64 := 0x9E3779B185EBCA87
  const PRIME64_2: u64 := 0xC2B2AE3D27D4EB4F
  const PRIME64_3: u64 := 0x165667B19E3779F9
  const PRIME64_4: u64 := 0x85EBCA77C2B2AE63
  const PRIME64_5: u64 := 0x27D4EB2F165667C5

  /** XXH3_INIT_ACC */
  function InitAcc(): (acc: seq<u64>)
    ensures |acc| == 8
  {
    [PRIME32_3, PRIME64_1, PRIME64_2, PRIME64_3, PRIME64_4, PRIME32_2, PRIME64_5, PRIME32_1]
  }

  // ---- what a kernel computes ---------------------------------------------------------

  function Lane(bytes: seq<u8>, i: nat): u64
    requires 8 * i + 8 <= |bytes|
  {
    ReadLE64(bytes[8 * i..])
  }

  /** The neighbour of lane i in its 128-bit pair: `i ^ 1`. */
  function Neighbour(i: nat): nat { if i % 2 == 0 then i + 1 else i - 1 }

  /** The product of the two halves of the keyed data of lane i. */
  function KeyedProduct(stripe: seq<u8>, key: seq<u8>, i: nat): u64
    requires i < 8 && |stripe| == 64 && |key| >= 64
  {
    var dataKey := Xor64(Lane(stripe, i), Lane(key, i));
    Mul32To64(Lo32(dataKey), Hi32(dataKey))
  }

  function DataLanes(stripe: seq<u8>): (r: seq<u64>)
    requires |stripe| == 64
    ensures |r| == 8
  {
    seq(8, i requires 0 <= i < 8 => Lane(stripe, i))
  }

  function Products(stripe: seq<u8>, key: seq<u8>): (r: seq<u64>)
    requires |stripe| == 64 && |key| >= 64
    ensures |r| == 8
  {
    seq(8, i requires 0 <= i < 8 => KeyedProduct(stripe, key, i))
  }

  function NewLane(acc: seq<u64>, data: seq<u64>, prod: seq<u64>, i: nat): u64
    requires |acc| == 8 && |data| == 8 && |prod| == 8 && i < 8
  {
    Add64(Add64(acc[i], data[Neighbour(i)]), prod[i])
  }

  /** Every lane gains the data of its neighbour and the keyed product of its own data. */
  function Accumulate512(acc: seq<u64>, stripe: seq<u8>, key: seq<u8>): (r: seq<u64>)
    requires |acc| == 8 && |stripe| == 64 && |key| >= 64
    ensures |r| == 8
  {
    var data, prod := DataLanes(stripe), Products(stripe, key);
    seq(8, i requires 0 <= i < 8 => NewLane(acc, data, prod, i))
  }

  function ScrambleLane(a: u64, key: u64): u64
  {
    Mul64(Xor64(XorShift64(a, 47), key), PRIME32_1)
  }

  function Scramble(acc: seq<u64>, key: seq<u8>): (r: seq<u64>)
    requires |acc| == 8 && |key| >= 64
    ensures |r| == 8
  {
    seq(8, i requires 0 <= i < 8 => ScrambleLane(acc[i], Lane(key, i)))
  }

  // ---- scalar kernels -----------------------------------------------------------------

  lemma Add64Comm(a: u64, b: u64)
    ensures Add64(a, b) == Add64(b, a)
  {
  }

  lemma Add64Swap(a: u64, b: u64, c: u64)
    ensures Add64(Add64(a, b), c) == Add64(Add64(a, c), b)
  {
    assert Add64(Add64(a, b), c) == (a + b + c) % 0x1_0000_0000_0000_0000;
    assert Add64(Add64(a, c), b) == (a + b + c) % 0x1_0000_0000_0000_0000;
  }

  /** One round of the scalar kernel: data goes to the neighbouring lane, the product to the
      lane itself. */
  function Round(acc: seq<u64>, data: seq<u64>, prod: seq<u64>, i: nat): (r: seq<u64>)
    requires |acc| == 8 && |data| == 8 && |prod| == 8 && i < 8
    ensures |r| == 8
  {
    var a := acc[Neighbour(i) := Add64(acc[Neighbour(i)], data[i])];
    a[i := Add64(a[i], prod[i])]
  }

  function Rounds(acc: seq<u64>, data: seq<u64>, prod: seq<u64>, n: nat): (r: seq<u64>)
    requires |acc| == 8 && |data| == 8 && |prod| == 8 && n <= 8
    ensures |r| == 8
  {
    if n == 0 then acc else Round(Rounds(acc, data, prod, n - 1), data, prod, n - 1)
  }

  /** After 2k rounds the first k pairs of lanes are complete and the others untouched. */
  lemma {:induction false} RoundsByPairs(acc: seq<u64>, data: seq<u64>, prod: seq<u64>, k: nat)
    requires |acc| == 8 && |data| == 8 && |prod| == 8 && k <= 4
    ensures forall j :: 0 <= j < 8 ==>
      Rounds(acc, data, prod, 2 * k)[j]
      == if j < 2 * k then NewLane(acc, data, prod, j) else acc[j]
  {
    hide Add64;
    if k > 0 {
      var e := 2 * k - 2;
      RoundsByPairs(acc, data, prod, k - 1);
      var r := Rounds(acc, data, prod, e);
      assert Rounds(acc, data, prod, e + 1) == Round(r, data, prod, e);
      assert Rounds(acc, data, prod, e + 2) == Round(Round(r, data, prod, e), data, prod, e + 1);
      Add64Swap(acc[e], data[e + 1], prod[e]);
    }
  }

  /** XXH3_accumulate_512_scalar: each round adds data to the neighbouring lane and the product
      to its own, so a lane is written in two different rounds. */
  method Accumulate512Scalar(acc: array<u64>, input: seq<u8>, secret: seq<u8>)
    requires acc.Length == 8 && |input| == 64 && |secret| >= 64
    modifies acc
    ensures acc[..] == Accumulate512(old(acc[..]), input, secret)
  {
    hide Add64, Mul32To64, Xor64, Lane;
    ghost var was := acc[..];
    ghost var data, prod := DataLanes(input), Products(input, secret);
    var i := 0;
    while i < 8
      invariant 0 <= i <= 8
      invariant acc[..] == Rounds(was, data, prod, i)
    {
      var dataVal := Lane(input, i);
      var dataKey := Xor64(dataVal, Lane(secret, i));
      acc[Neighbour(i)] := Add64(acc[Neighbour(i)], dataVal);
      acc[i] := Add64(acc[i], Mul32To64(Lo32(dataKey), Hi32(dataKey)));
      i := i + 1;
    }
    RoundsByPairs(was, data, prod, 4);
  }

  /** XXH3_scrambleAcc_scalar */
  method ScrambleScalar(acc: array<u64>, secret: seq<u8>)
    requires acc.Length == 8 && |secret| >= 64
    modifies acc
    ensures acc[..] == Scramble(old(acc[..]), secret)
  {
    ghost var was := acc[..];
    var i := 0;
    while i < 8
      invariant 0 <= i <= 8
      invariant forall j :: 0 <= j < i ==> acc[j] == ScrambleLane(was[j], Lane(secret, j))
      invariant forall j :: i <= j < 8 ==> acc[j] == was[j]
    {
      var key64 := Lane(secret, i);
      var acc64 := acc[i];
      acc64 := XorShift64(acc64, 47);
      acc64 := Xor64(acc64, key64);
      acc64 := Mul64(acc64, PRIME32_1);
      acc[i] := acc64;
      i := i + 1;
    }
  }

  // ---- 128-bit SIMD kernels -----------------------------------------------------------

  /** A 128-bit register: two 64-bit lanes, or four 32-bit elements, low element first. */
  datatype Vec = Vec(lane0: u64, lane1: u64) {
    function Element(k: nat): u32
      requires k < 4
    {
      if k == 0 then Lo32(lane0) else if k == 1 then Hi32(lane0)
      else if k == 2 then Lo32(lane1) else Hi32(lane1)
    }
  }

  /** `_mm_shuffle_epi32(v, _MM_SHUFFLE(z, y, x, w))`: element k of the result is the element of
      v that the k-th selector, counted from the right, names. */
  function ShuffleEpi32(v: Vec, z: nat, y: nat, x: nat, w: nat): Vec
    requires z < 4 && y < 4 && x < 4 && w < 4
  {
    Vec(Join(v.Element(w), v.Element(x)), Join(v.Element(y), v.Element(z)))
  }

  /** `_mm_mul_epu32`: products of the even elements. */
  function MulEpu32(a: Vec, b: Vec): Vec
  {
    Vec(Mul32To64(a.Element(0), b.Element(0)), Mul32To64(a.Element(2), b.Element(2)))
  }

  function AddEpi64(a: Vec, b: Vec): Vec { Vec(Add64(a.lane0, b.lane0), Add64(a.lane1, b.lane1)) }

  function XorVec(a: Vec, b: Vec): Vec { Vec(Xor64(a.lane0, b.lane0), Xor64(a.lane1, b.lane1)) }

  function SrliEpi64(a: Vec, s: nat): Vec
  {
    Vec(Shr(a.lane0, s), Shr(a.lane1, s))
  }

  /** `_mm_slli_epi64(a, 32)` */
  function SlliEpi64By32(a: Vec): Vec
  {
    Vec(Mul64(a.lane0, 0x1_0000_0000), Mul64(a.lane1, 0x1_0000_0000))
  }

  function Set1Epi32(x: u32): Vec { Vec(Join(x, x), Join(x, x)) }

  function LoadVec(bytes: seq<u8>, i: nat): Vec
    requires 16 * i + 16 <= |bytes|
  {
    Vec(Lane(bytes, 2 * i), Lane(bytes, 2 * i + 1))
  }

  /** One register of XXH3_accumulate_512_sse2. */
  function AccumulateVec(acc: Vec, data: Vec, key: Vec): Vec
  {
    var dataKey := XorVec(data, key);
    var dataKeyLo := ShuffleEpi32(dataKey, 0, 3, 0, 1);
    var product := MulEpu32(dataKey, dataKeyLo);
    var dataSwap := ShuffleEpi32(data, 1, 0, 3, 2);
    var sum := AddEpi64(acc, dataSwap);
    AddEpi64(product, sum)
  }

  lemma AccumulateVecLanes(acc: seq<u64>, input: seq<u8>, secret: seq<u8>, i: nat)
    requires |acc| == 8 && i < 4 && |input| == 64 && |secret| >= 64
    ensures var want := Accumulate512(acc, input, secret);
            AccumulateVec(Vec(acc[2 * i], acc[2 * i + 1]), LoadVec(input, i), LoadVec(secret, i))
            == Vec(want[2 * i], want[2 * i + 1])
  {
    hide Add64, Mul32To64, Xor64, Lane;
    var data, key := LoadVec(input, i), LoadVec(secret, i);
    var dataKey := XorVec(data, key);
    assert ShuffleEpi32(data, 1, 0, 3, 2) == Vec(data.lane1, data.lane0);
    assert MulEpu32(dataKey, ShuffleEpi32(dataKey, 0, 3, 0, 1))
        == Vec(KeyedProduct(input, secret, 2 * i), KeyedProduct(input, secret, 2 * i + 1));
    Add64Comm(KeyedProduct(input, secret, 2 * i), Add64(acc[2 * i], data.lane1));
    Add64Comm(KeyedProduct(input, secret, 2 * i + 1), Add64(acc[2 * i + 1], data.lane0));
  }

  /** XXH3_accumulate_512_sse2: the two lanes of a register are swapped by a shuffle of the data
      instead of by the order of the stores. */
  method Accumulate512Sse2(acc: array<u64>, input: seq<u8>, secret: seq<u8>)
    requires acc.Length == 8 && |input| == 64 && |secret| >= 64
    modifies acc
    ensures acc[..] == Accumulate512(old(acc[..]), input, secret)
  {
    hide *;
    ghost var was := acc[..];
    ghost var want := Accumulate512(was, input, secret);
    var i := 0;
    while i < 4
      invariant 0 <= i <= 4
      invariant forall j :: 0 <= j < 8 ==> acc[j] == if j < 2 * i then want[j] else was[j]
    {
      var r := AccumulateVec(Vec(acc[2 * i], acc[2 * i + 1]), LoadVec(input, i), LoadVec(secret, i));
      AccumulateVecLanes(was, input, secret, i);
      acc[2 * i], acc[2 * i + 1] := r.lane0, r.lane1;
      i := i + 1;
    }
  }

  /** A 64-bit product with a 32-bit constant is the sum of two 32-bit products, the upper one
      shifted into place. */
  lemma SplitMultiply(x: u64, p: u32)
    ensures Add64(Mul32To64(Lo32(x), p), Mul64(Mul32To64(Hi32(x), p), 0x1_0000_0000)) == Mul64(x, p)
  {
    var lo: int, hi: int, q: int := Lo32(x), Hi32(x), p;
    SplitProduct(x, lo, hi, q);
    ModOfSum(lo * q, hi * q * 0x1_0000_0000);
  }

  lemma SplitProduct(x: int, lo: int, hi: int, q: int)
    requires x == hi * 0x1_0000_0000 + lo
    ensures x * q == lo * q + hi * q * 0x1_0000_0000
  {
  }

  lemma ModOfSum(a: int, m: int)
    ensures (a + m % 0x1_0000_0000_0000_0000) % 0x1_0000_0000_0000_0000
         == (a + m) % 0x1_0000_0000_0000_0000
  {
  }

  /** One register of XXH3_scrambleAcc_sse2. */
  function ScrambleVec(acc: Vec, key: Vec): Vec
  {
    var prime32 := Set1Epi32(PRIME32_1);
    var dataVec := XorVec(acc, SrliEpi64(acc, 47));
    var dataKey := XorVec(dataVec, key);
    var dataKeyHi := ShuffleEpi32(dataKey, 0, 3, 0, 1);
    var prodLo := MulEpu32(dataKey, prime32);
    var prodHi := MulEpu32(dataKeyHi, prime32);
    AddEpi64(prodLo, SlliEpi64By32(prodHi))
  }

  lemma ScrambleVecLanes(acc: seq<u64>, secret: seq<u8>, i: nat)
    requires |acc| == 8 && i < 4 && |secret| >= 64
    ensures var want := Scramble(acc, secret);
            ScrambleVec(Vec(acc[2 * i], acc[2 * i + 1]), LoadVec(secret, i))
            == Vec(want[2 * i], want[2 * i + 1])
  {
    hide Add64, Mul64, Mul32To64, Xor64, XorShift64, Lane;
    var v := Vec(acc[2 * i], acc[2 * i + 1]);
    var dataKey := XorVec(XorVec(v, SrliEpi64(v, 47)), LoadVec(secret, i));
    XorShiftDef(v.lane0); XorShiftDef(v.lane1);
    SplitMultiply(dataKey.lane0, PRIME32_1);
    SplitMultiply(dataKey.lane1, PRIME32_1);
  }

  lemma XorShiftDef(x: u64)
    ensures XorShift64(x, 47) == Xor64(x, Shr(x, 47))
  {
  }

  /** XXH3_scrambleAcc_sse2: no 64-bit multiply, only 32-bit ones and a shift. */
  method ScrambleSse2(acc: array<u64>, secret: seq<u8>)
    requires acc.Length == 8 && |secret| >= 64
    modifies acc
    ensures acc[..] == Scramble(old(acc[..]), secret)
  {
    hide *;
    ghost var was := acc[..];
    ghost var want := Scramble(was, secret);
    var i := 0;
    while i < 4
      invariant 0 <= i <= 4
      invariant forall j :: 0 <= j < 8 ==> acc[j] == if j < 2 * i then want[j] else was[j]
    {
      var r := ScrambleVec(Vec(acc[2 * i], acc[2 * i + 1]), LoadVec(secret, i));
      ScrambleVecLanes(was, secret, i);
      acc[2 * i], acc[2 * i + 1] := r.lane0, r.lane1;
      i := i + 1;
    }
  }
}
