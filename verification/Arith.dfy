/** The few facts about products and quotients the partition proofs rest on. */
module Arith {

  lemma MulMono(a: nat, b: nat, c: nat)
    requires a <= b
    ensures a * c <= b * c
  {
    assert b * c == a * c + (b - a) * c;
  }

  lemma Commute(a: int, b: int)
    ensures a * b == b * a
  {
  }

  lemma MulStep(a: nat, c: nat)
    ensures (a + 1) * c == a * c + c
  {
  }

  lemma DivBounds(d: nat, size: nat)
    requires size > 0
    ensures (d / size) * size <= d < (d / size) * size + size
  {
    assert d == (d / size) * size + d % size;
  }

  /** The quotient is the only block number whose block holds d. */
  lemma QuotientIs(d: nat, size: nat, q: nat)
    requires size > 0 && q * size <= d < q * size + size
    ensures d / size == q
  {
    var p := d / size;
    DivBounds(d, size);
    if p < q {
      MulMono(p + 1, q, size);
      MulStep(p, size);
    }
    if q < p {
      MulMono(q + 1, p, size);
      MulStep(q, size);
    }
  }

  /** The largest std::size_t; sizes and addresses are 64 bits wide. */
  const SIZE_MAX: nat := 0xffff_ffff_ffff_ffff

  /** Dividing the limit first says exactly that the product would exceed it. */
  lemma OverflowTest(total: nat, extent: nat, limit: nat)
    requires extent > 0
    ensures total > limit / extent <==> total * extent > limit
  {
    DivBounds(limit, extent);
    if total <= limit / extent {
      MulMono(total, limit / extent, extent);
    } else {
      MulMono(limit / extent + 1, total, extent);
      MulStep(limit / extent, extent);
    }
  }
}
