/** Quotients and remainders by a variable divisor, and the alignment of packed tensors. */
module Arithmetic {
  const DEFAULT_PACKED_TENSOR_ALIGNMENT_BYTES: nat := 128

  lemma DivModUnique(n: int, d: int, q: int, r: int)
    requires n == q * d + r && 0 <= r < d
    ensures n / d == q && n % d == r
  {
    var q', r' := n / d, n % d;
    assert (q' - q) * d == r - r';
    AtLeastOnce(q' - q, d);
  }

  lemma AtLeastOnce(m: int, d: int)
    requires d > 0
    ensures m >= 1 ==> m * d >= d
    ensures m <= -1 ==> m * d <= -d
  {
    if m >= 1 { assert m * d == (m - 1) * d + d; }
    if m <= -1 { assert m * d == (m + 1) * d - d; }
  }
}
