/**
 * The block-aligned search of a shader core's hardware-thread-id bitmap.
 *
 * The scan visits offsets 0, n, 2n, ... below the core's thread budget and, within each
 * block, probes ids from the block's start until it meets an id in use. The first block
 * whose n ids are all free is the answer. Blocks are aligned on purpose, so that a CTA's
 * warps stay contiguous and warp-aligned; this is not a first-fit over arbitrary offsets.
 * The bitmap has a fixed capacity, and a probe past that capacity is a fault (Overrun).
 */
module HwtidScan {

  /** Outcome of one scan: the offset found, none (-1 in the source), or a probe past capacity. */
  datatype Probe = Found(start: nat) | NotFound | Overrun

  /** Every id of the block [start, start + n) lies inside the bitmap and is free. */
  predicate BlockClear(bits: seq<bool>, start: nat, n: nat)
  {
    start + n <= |bits| && forall i :: start <= i < start + n ==> !bits[i]
  }

  /** Some id of the block [start, start + n) inside the bitmap is in use: probing it stops early. */
  predicate BlockBusy(bits: seq<bool>, start: nat, n: nat)
  {
    exists i :: start <= i < start + n && i < |bits| && bits[i]
  }

  /** The scan from offset step onwards, block by block, with threshold limit. */
  function Scan(bits: seq<bool>, limit: nat, n: nat, step: nat): (p: Probe)
    ensures p.Found? ==> step <= p.start < limit && BlockClear(bits, p.start, n)
    ensures step >= limit ==> p == NotFound
    decreases limit - step
  {
    if step >= limit then NotFound
    else if BlockClear(bits, step, n) then Found(step)
    else if !BlockBusy(bits, step, n) then Overrun
    else Scan(bits, limit, n, step + n)
  }

  /** The scan result as the source reports it: the offset, or -1 when nothing was found. */
  function Offset(p: Probe): int
  {
    match p
    case Found(s) => s
    case _ => -1
  }

  /** bits with every id of [start, start + n) inside the bitmap set to v. */
  function SetBlock(bits: seq<bool>, start: nat, n: nat, v: bool): (r: seq<bool>)
    ensures |r| == |bits|
    ensures forall i :: 0 <= i < |bits| ==> r[i] == if start <= i < start + n then v else bits[i]
  {
    seq(|bits|, i requires 0 <= i < |bits| => if start <= i < start + n then v else bits[i])
  }

  /** A clear block and a busy block are different blocks. */
  lemma ClearNotBusy(bits: seq<bool>, start: nat, n: nat)
    requires BlockClear(bits, start, n)
    ensures !BlockBusy(bits, start, n)
  {
  }

  /** Two distinct multiples of n are at least n apart. */
  lemma AlignedGap(s: nat, t: nat, n: nat)
    requires n > 0 && s % n == 0 && t % n == 0 && s < t
    ensures s + n <= t
  {
    var qs, qt := s / n, t / n;
    assert s == qs * n && t == qt * n;
    var d := qt - qs;
    assert t - s == d * n by {
      assert qt * n == (qs + d) * n;
      assert (qs + d) * n == qs * n + d * n;
    }
  }

  /** Adding n keeps an offset aligned on n. */
  lemma AlignedNext(s: nat, n: nat)
    requires n > 0 && s % n == 0
    ensures (s + n) % n == 0
  {
    var q := s / n;
    assert s + n == (q + 1) * n;
    assert ((q + 1) * n) % n == 0 by {
      var x := (q + 1) * n;
      assert x == (x / n) * n + x % n;
      var d := q + 1 - x / n;
      assert d * n == x % n by {
        assert (q + 1) * n == (x / n + d) * n;
        assert (x / n + d) * n == (x / n) * n + d * n;
      }
    }
  }

  /**
   * A scan that finds an offset returns an aligned block that is clear, and every aligned
   * block it passed on the way was busy. A scan that finds nothing saw only busy blocks.
   */
  lemma {:induction false} ScanSound(bits: seq<bool>, limit: nat, n: nat, step: nat)
    requires n > 0 && step % n == 0
    ensures Scan(bits, limit, n, step).Found? ==>
      var s := Scan(bits, limit, n, step).start;
      step <= s < limit && s % n == 0 && BlockClear(bits, s, n) &&
      forall t :: step <= t < s && t % n == 0 ==> BlockBusy(bits, t, n)
    ensures Scan(bits, limit, n, step) == NotFound ==>
      forall t :: step <= t < limit && t % n == 0 ==> BlockBusy(bits, t, n)
    decreases limit - step
  {
    if step < limit && !BlockClear(bits, step, n) && BlockBusy(bits, step, n) {
      AlignedNext(step, n);
      ScanSound(bits, limit, n, step + n);
      forall t | step <= t < step + n && t % n == 0
        ensures t == step
      {
        if step < t { AlignedGap(step, t, n); }
      }
    }
  }

  /**
   * When the scan does not overrun the bitmap, it returns exactly the least aligned offset
   * below limit whose block is clear, and -1 exactly when there is none.
   */
  lemma ScanFindsLeastClearBlock(bits: seq<bool>, limit: nat, n: nat)
    requires n > 0
    requires Scan(bits, limit, n, 0) != Overrun
    ensures Scan(bits, limit, n, 0) == NotFound <==>
      forall t :: 0 <= t < limit && t % n == 0 ==> !BlockClear(bits, t, n)
    ensures forall s: nat :: Scan(bits, limit, n, 0) == Found(s) <==>
      (s < limit && s % n == 0 && BlockClear(bits, s, n) &&
       forall t :: 0 <= t < s && t % n == 0 ==> !BlockClear(bits, t, n))
  {
    ScanSound(bits, limit, n, 0);
    var r := Scan(bits, limit, n, 0);
    forall t | 0 <= t < limit && t % n == 0 && BlockClear(bits, t, n)
      ensures r.Found? && r.start <= t
    {
      ClearNotBusy(bits, t, n);
    }
    forall s: nat | s < limit && s % n == 0 && BlockClear(bits, s, n) &&
      (forall t :: 0 <= t < s && t % n == 0 ==> !BlockClear(bits, t, n))
      ensures r == Found(s)
    {
      assert r.Found? && r.start <= s;
    }
  }

  /** Setting a clear block and then resetting it gives back the original bitmap. */
  lemma ResetUndoesSet(bits: seq<bool>, start: nat, n: nat)
    requires BlockClear(bits, start, n)
    ensures SetBlock(SetBlock(bits, start, n, true), start, n, false) == bits
  {
    var r := SetBlock(SetBlock(bits, start, n, true), start, n, false);
    assert forall i :: 0 <= i < |bits| ==> r[i] == bits[i];
  }

  /**
   * Only the block's start is kept below the thread budget: with a budget of 6 ids, blocks
   * of 4, a bitmap of capacity 8 and id 0 in use, the scan answers offset 4, whose block
   * covers ids 4 to 7, past the budget.
   */
  lemma BlockMayPassBudget()
    ensures var bits := seq(8, i => i == 0);
      Scan(bits, 6, 4, 0) == Found(4) && 4 + 4 > 6
  {
    var bits := seq(8, i => i == 0);
    assert bits[0];
    assert BlockBusy(bits, 0, 4);
    assert BlockClear(bits, 4, 4);
  }
}
