/** The 64 x 64 -> 128-bit multiply (`XXH_mult64to128`): the native form and the portable
    grade-school form, which are shown to be the same function. */
module Mult128 {
  import opened Words

  datatype U128 = U128(low: u64, high: u64)

  /** The branch for compilers with a 128-bit product. */
  function Mult64To128(lhs: u64, rhs: u64): U128
  {
    ProductBound(lhs, rhs);
    U128(lhs * rhs % 0x1_0000_0000_0000_0000, lhs * rhs / 0x1_0000_0000_0000_0000)
  }

  /** The portable branch.  Every sum wraps at 64 bits, as in C. */
  function Mult64To128Portable(lhs: u64, rhs: u64): U128
  {
    var loLo := Mul32To64(Lo32(lhs), Lo32(rhs));
    var hiLo := Mul32To64(Hi32(lhs), Lo32(rhs));
    var loHi := Mul32To64(Lo32(lhs), Hi32(rhs));
    var hiHi := Mul32To64(Hi32(lhs), Hi32(rhs));
    AddProducts(loLo, hiLo, loHi, hiHi)
  }

  function AddProducts(loLo: u64, hiLo: u64, loHi: u64, hiHi: u64): U128
  {
    var cross := Add64(Add64(Hi32(loLo), Lo32(hiLo)), loHi);
    var upper := Add64(Add64(Hi32(hiLo), Hi32(cross)), hiHi);
    U128(Join(Lo32(loLo), Lo32(cross)), upper)
  }

  function Mul128Fold64(lhs: u64, rhs: u64): u64
  {
    var product := Mult64To128(lhs, rhs);
    Xor64(product.low, product.high)
  }

  lemma ProductBound(lhs: u64, rhs: u64)
    ensures 0 <= lhs * rhs / 0x1_0000_0000_0000_0000 < 0x1_0000_0000_0000_0000
  {
    MulMonotone(lhs, rhs, 0xFFFF_FFFF_FFFF_FFFF);
    MulMonotone(0xFFFF_FFFF_FFFF_FFFF, lhs, 0xFFFF_FFFF_FFFF_FFFF);
    MulMonotone(lhs, 0, rhs);
  }

  /** The four partial products add up to the whole product. */
  lemma Schoolbook(a1: nat, a0: nat, b1: nat, b0: nat)
    ensures (a1 * 0x1_0000_0000 + a0) * (b1 * 0x1_0000_0000 + b0)
         == a1 * b1 * 0x1_0000_0000_0000_0000 + (a1 * b0 + a0 * b1) * 0x1_0000_0000 + a0 * b0
  {
    var x := b1 * 0x1_0000_0000 + b0;
    assert (a1 * 0x1_0000_0000 + a0) * x == a1 * x * 0x1_0000_0000 + a0 * x;
    assert a1 * x == a1 * b1 * 0x1_0000_0000 + a1 * b0;
    assert a0 * x == a0 * b1 * 0x1_0000_0000 + a0 * b0;
  }

  /** With partial products of 32-bit values no sum wraps, and nothing is lost. */
  lemma SumsDoNotOverflow(ll: u64, hl: u64, lh: u64, hh: u64)
    requires ll <= 0xFFFF_FFFE_0000_0001 && hl <= 0xFFFF_FFFE_0000_0001
    requires lh <= 0xFFFF_FFFE_0000_0001 && hh <= 0xFFFF_FFFE_0000_0001
    ensures Hi32(ll) + Lo32(hl) + lh < 0x1_0000_0000_0000_0000
    ensures var r := AddProducts(ll, hl, lh, hh);
            r.high * 0x1_0000_0000_0000_0000 + r.low
            == hh * 0x1_0000_0000_0000_0000 + (hl + lh) * 0x1_0000_0000 + ll
  {
    var cross: int := Hi32(ll) + Lo32(hl) + lh;
    Halves(ll); Halves(hl); Halves(cross);
    var upper: int := Hi32(hl) + Hi32(cross) + hh;
    assert AddProducts(ll, hl, lh, hh) == U128(Join(Lo32(ll), Lo32(cross)), upper) by {
      AddsExactly(Hi32(ll), Lo32(hl)); AddsExactly(Hi32(ll) + Lo32(hl), lh);
      AddsExactly(Hi32(hl), Hi32(cross)); AddsExactly(Hi32(hl) + Hi32(cross), hh);
    }
  }

  lemma Halves(x: u64)
    ensures x == Hi32(x) * 0x1_0000_0000 + Lo32(x)
  {
  }

  lemma AddsExactly(a: int, b: int)
    requires 0 <= a && 0 <= b && a + b < 0x1_0000_0000_0000_0000
    ensures Add64(a, b) == a + b
  {
  }

  /** The halves of the portable multiply are exactly the 128-bit product. */
  lemma PortableMultiplyIsExact(lhs: u64, rhs: u64)
    ensures Mult64To128Portable(lhs, rhs) == Mult64To128(lhs, rhs)
    ensures var r := Mult64To128Portable(lhs, rhs);
            r.high * 0x1_0000_0000_0000_0000 + r.low == lhs * rhs
  {
    var a1: int, a0: int, b1: int, b0: int := Hi32(lhs), Lo32(lhs), Hi32(rhs), Lo32(rhs);
    MulBound(a0, b0); MulBound(a1, b0); MulBound(a0, b1); MulBound(a1, b1);
    Schoolbook(a1, a0, b1, b0);
    SumsDoNotOverflow(a0 * b0, a1 * b0, a0 * b1, a1 * b1);
    var r := AddProducts(a0 * b0, a1 * b0, a0 * b1, a1 * b1);
    DivUnique(lhs * rhs, 0x1_0000_0000_0000_0000, r.high, r.low);
  }
}
