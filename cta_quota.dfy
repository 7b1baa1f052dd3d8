/**
 * Splitting a cluster-wide CTA count across the cluster's cores: every core gets k / n,
 * and the first k % n cores one more.
 */
module CtaQuota {
  import opened SeqSum

  /** Quota of core c when k CTAs are split over n cores. */
  function Quota(k: nat, n: nat, c: nat): nat
    requires n > 0
  {
    k / n + if c < k % n then 1 else 0
  }

  /** The quotas of all n cores. */
  function QuotaSplit(k: nat, n: nat): (q: seq<nat>)
    requires n > 0
    ensures |q| == n
    ensures forall c :: 0 <= c < n ==> q[c] == Quota(k, n, c)
  {
    seq(n, c requires 0 <= c < n => Quota(k, n, c))
  }

  /** Sum of m entries each base, the first extra of them one larger. */
  lemma {:induction false} SumOfSteps(q: seq<nat>, base: nat, extra: nat)
    requires extra <= |q|
    requires forall c :: 0 <= c < |q| ==> q[c] == base + if c < extra then 1 else 0
    ensures Sum(q) == |q| * base + extra
  {
    if q != [] {
      var tail := q[1..];
      var extra' := if extra > 0 then extra - 1 else 0;
      forall c | 0 <= c < |tail|
        ensures tail[c] == base + if c < extra' then 1 else 0
      {
        assert tail[c] == q[c + 1];
      }
      SumOfSteps(tail, base, extra');
      assert |q| * base == |tail| * base + base;
    }
  }

  /** The quotas add up to exactly the configured CTA count. */
  lemma QuotaSplitSum(k: nat, n: nat)
    requires n > 0
    ensures Sum(QuotaSplit(k, n)) == k
  {
    SumOfSteps(QuotaSplit(k, n), k / n, k % n);
  }

  /** Quotas never grow with the core index, and any two differ by at most one. */
  lemma QuotaSplitBalanced(k: nat, n: nat)
    requires n > 0
    ensures forall c, d :: 0 <= c <= d < n ==>
      QuotaSplit(k, n)[d] <= QuotaSplit(k, n)[c] <= QuotaSplit(k, n)[d] + 1
  {
  }

  /** When maxCta CTAs per core cover the cluster count, no core's quota exceeds maxCta. */
  lemma QuotaWithinCoreLimit(k: nat, n: nat, maxCta: nat)
    requires n > 0 && maxCta * n >= k
    ensures forall c :: 0 <= c < n ==> QuotaSplit(k, n)[c] <= maxCta
  {
    var q, r := k / n, k % n;
    assert k == q * n + r;
    var d := maxCta - q;
    assert maxCta * n - q * n == d * n;
    assert d * n >= r;
    NegativeMultiple(d, n);
    if d == 0 {
      assert r == 0;
    }
  }

  /** A negative multiple of a positive n is at most -n. */
  lemma NegativeMultiple(d: int, n: int)
    requires n > 0
    ensures d < 0 ==> d * n <= -n
  {
    if d < 0 {
      var e := -d;
      assert (e - 1) * n >= 0;
      assert e * n == (e - 1) * n + n;
      assert d * n == -(e * n);
    }
  }

  /**
   * Writes the split of k CTAs over q.Length cores into q, as two passes: every core
   * gets k / n, then each of the first k % n cores one more.
   */
  method AssignQuota(q: array<nat>, k: nat)
    requires q.Length > 0
    modifies q
    ensures q[..] == QuotaSplit(k, q.Length)
  {
    var n := q.Length;
    for c := 0 to n
      invariant forall j :: 0 <= j < c ==> q[j] == k / n
    {
      q[c] := k / n;
    }
    for c := 0 to k % n
      invariant forall j :: 0 <= j < n ==> q[j] == k / n + if j < c then 1 else 0
    {
      q[c] := q[c] + 1;
    }
  }
}
