/**
 * The per-CTA resource arithmetic shared by admission and release on a shader core:
 * a CTA's thread count is padded to whole warps, and its per-thread register count is
 * rounded to a multiple of four before it is charged against the register file.
 */
module CtaPadding {

  /** Threads a CTA occupies once padded up to a whole number of warps. */
  function PaddedCtaSize(threadsPerCta: nat, warpSize: nat): (padded: nat)
    requires warpSize > 0
    ensures padded % warpSize == 0
    ensures threadsPerCta <= padded < threadsPerCta + warpSize
  {
    if threadsPerCta % warpSize != 0 then
      MultipleOf(threadsPerCta / warpSize + 1, warpSize);
      (threadsPerCta / warpSize + 1) * warpSize
    else
      threadsPerCta
  }

  /** Quotient and remainder are determined by any decomposition x == q * w + r with 0 <= r < w. */
  lemma DivModUnique(x: int, w: int, q: int, r: int)
    requires w > 0 && 0 <= r < w && x == q * w + r
    ensures x / w == q && x % w == r
  {
    var q', r' := x / w, x % w;
    var d := q - q';
    assert q * w == (q' + d) * w;
    assert (q' + d) * w == q' * w + d * w;
    assert d * w == r' - r;
  }

  /** k * w is a multiple of w. */
  lemma MultipleOf(k: nat, w: nat)
    requires w > 0
    ensures (k * w) % w == 0 && (k * w) / w == k
  {
    DivModUnique(k * w, w, k, 0);
  }

  /** The padded size is the least warp multiple that holds the whole CTA. */
  lemma PaddedIsLeast(threadsPerCta: nat, warpSize: nat, m: nat)
    requires warpSize > 0
    requires m % warpSize == 0 && threadsPerCta <= m
    ensures PaddedCtaSize(threadsPerCta, warpSize) <= m
  {
    var p := PaddedCtaSize(threadsPerCta, warpSize);
    var qm, qp := m / warpSize, p / warpSize;
    assert m == qm * warpSize;
    assert p == qp * warpSize;
    var d := qp - qm;
    assert p - m == d * warpSize by {
      assert qp * warpSize == (qm + d) * warpSize;
      assert (qm + d) * warpSize == qm * warpSize + d * warpSize;
    }
  }

  /** Registers charged per thread: the kernel's count rounded up to a multiple of 4 ((regs + 3) & ~3). */
  function RegsPerThread(regs: nat): (r: nat)
    ensures r % 4 == 0
    ensures regs <= r < regs + 4
  {
    (regs + 3) / 4 * 4
  }

  /** Registers one CTA takes from the register file. */
  function UsedRegs(padded: nat, regs: nat): (used: nat)
    ensures used >= padded * regs
    ensures used % 4 == 0
  {
    MultipleOf(padded * ((regs + 3) / 4), 4);
    assert padded * RegsPerThread(regs) == padded * ((regs + 3) / 4) * 4;
    padded * RegsPerThread(regs)
  }
}
