/**
 * The top-level scheduler of the GPU simulator: the table of running kernels and the
 * choice of the kernel that supplies the next CTA, the executed-kernel ledger and the
 * finished-kernel queue, the four clock domains, the per-launch statistics counters,
 * deadlock detection, the liveness test, the cluster round-robin that issues CTAs and the
 * per-core CTA quota of the first co-executing kernel.
 */
module GpgpuSim {
  import opened SeqSum
  import opened CtaQuota
  import opened ClockDomains
  import opened Kernels

  /** Instructions must retire at least once per window of this many cycles. */
  const DeadlockWindow: nat := 50000

  /** The configuration values the scheduler consults (zero disables a ceiling). */
  datatype SimConfig = SimConfig(
    maxConcurrentKernel: nat,
    nThreadPerShader: nat,
    nSimtClusters: nat,
    nSimtCoresPerCluster: nat,
    gpuMaxCtaOpt: nat,
    gpuMaxCycleOpt: nat,
    gpuMaxInsnOpt: nat,
    gpuMaxCompletedCtaOpt: nat,
    gpuDeadlockDetect: bool,
    gpuSmkMctasKernel1: nat,
    gpuSmtSMsKernel1: nat,
    periods: ClockPeriods)

  datatype LaunchOutcome = Launched(slot: nat) | CtaTooLarge

  /** No uid occurs twice. */
  predicate NoDup(s: seq<nat>)
  {
    forall i, j :: 0 <= i < j < |s| ==> s[i] != s[j]
  }

  /** The uids of the kernels of a table, in slot order, skipping empty slots. */
  function UidsOf(s: seq<KernelInfo?>): seq<nat>
  {
    if |s| == 0 then []
    else UidsOf(s[..|s| - 1]) + (if s[|s| - 1] != null then [s[|s| - 1].uid] else [])
  }

  /** The clusters' issue counts in the order the round-robin visits them, starting after last. */
  function VisitOrder(issued: seq<nat>, last: nat): (v: seq<nat>)
    requires last < |issued|
    ensures |v| == |issued|
    ensures forall i :: 0 <= i < |issued| ==> v[i] == issued[(i + last + 1) % |issued|]
  {
    var v := issued[last + 1..] + issued[..last + 1];
    forall i | 0 <= i < |issued|
      ensures v[i] == issued[(i + last + 1) % |issued|]
    {
      RotatedIndex(|issued|, last, i);
    }
    v
  }

  /** Where the i-th visit of a round-robin starting after last lands in a table of size n. */
  lemma RotatedIndex(n: nat, last: nat, i: nat)
    requires last < n && i < n
    ensures i + last + 1 < n ==> (i + last + 1) % n == i + last + 1
    ensures i + last + 1 >= n ==> (i + last + 1) % n == i + last + 1 - n
  {
  }

  /**
   * The cluster the round-robin records as last issuing after visiting the counts vis
   * (a prefix of the visit order): the last visited cluster that issued, or last if none did.
   */
  function LastIssuer(vis: seq<nat>, last: nat, n: nat): nat
    requires n > 0
  {
    if |vis| == 0 then last
    else if vis[|vis| - 1] > 0 then (|vis| - 1 + last + 1) % n
    else LastIssuer(vis[..|vis| - 1], last, n)
  }

  /**
   * The recorded cluster is the last one in visiting order that issued a CTA, and it did
   * issue one; if no cluster issued, the previous record stays.
   */
  lemma {:induction false} LastIssuerIsLastNonZero(vis: seq<nat>, last: nat, n: nat)
    requires n > 0 && last < n
    ensures LastIssuer(vis, last, n) < n
    ensures (forall i :: 0 <= i < |vis| ==> vis[i] == 0) ==> LastIssuer(vis, last, n) == last
    ensures (exists i :: 0 <= i < |vis| && vis[i] > 0) ==>
      exists j :: 0 <= j < |vis| && vis[j] > 0 && LastIssuer(vis, last, n) == (j + last + 1) % n &&
        forall i :: j < i < |vis| ==> vis[i] == 0
  {
    if |vis| == 0 {
      return;
    }
    var top := |vis| - 1;
    if vis[top] > 0 {
      assert LastIssuer(vis, last, n) == (top + last + 1) % n;
      return;
    }
    var init := vis[..top];
    assert LastIssuer(vis, last, n) == LastIssuer(init, last, n);
    LastIssuerIsLastNonZero(init, last, n);
    if exists i :: 0 <= i < |vis| && vis[i] > 0 {
      var i :| 0 <= i < |vis| && vis[i] > 0;
      assert init[i] > 0;
      var j :| 0 <= j < |init| && init[j] > 0 && LastIssuer(init, last, n) == (j + last + 1) % n &&
        forall i :: j < i < |init| ==> init[i] == 0;
      assert vis[j] > 0;
      assert forall i :: j < i < |vis| ==> vis[i] == 0;
    } else {
      assert forall i :: 0 <= i < |init| ==> init[i] == 0;
    }
  }

  /**
   * Visits the n clusters once, round-robin from the one after last: sums what they issue and
   * finds the last visited cluster that issued anything (last itself if none did).
   */
  method VisitClusters(issued: seq<nat>, last: nat) returns (launched: nat, lastIssuer: nat)
    requires last < |issued|
    ensures launched == Sum(issued)
    ensures lastIssuer == LastIssuer(VisitOrder(issued, last), last, |issued|)
    ensures lastIssuer < |issued|
  {
    var n := |issued|;
    ghost var visits := VisitOrder(issued, last);
    launched, lastIssuer := 0, last;
    for i := 0 to n
      invariant launched == Sum(visits[..i])
      invariant lastIssuer == LastIssuer(visits[..i], last, n)
    {
      var idx := (i + last + 1) % n;
      var num := issued[idx];
      assert visits[..i + 1] == visits[..i] + [num];
      SumAppend(visits[..i], [num]);
      if num != 0 {
        lastIssuer := idx;
        launched := launched + num;
      }
    }
    assert visits[..n] == visits;
    SumRotate(issued, last + 1);
    LastIssuerIsLastNonZero(visits, last, n);
  }

  /** The memory-partition parallelism counters: each per-launch count beside its accumulated total. */
  datatype PartitionStats = PartitionStats(
    reqs: nat, reqsTotal: nat,
    replies: nat, repliesTotal: nat,
    reqsUtil: nat, reqsUtilTotal: nat,
    cycleUtil: nat, cycleUtilTotal: nat)

  /** Every per-launch count added into its total, and the per-launch counts zeroed. */
  function RolledOver(p: PartitionStats): (r: PartitionStats)
    ensures r.reqs == 0 && r.replies == 0 && r.reqsUtil == 0 && r.cycleUtil == 0
    ensures r.reqsTotal + r.repliesTotal + r.reqsUtilTotal + r.cycleUtilTotal ==
      p.reqs + p.reqsTotal + p.replies + p.repliesTotal + p.reqsUtil + p.reqsUtilTotal + p.cycleUtil + p.cycleUtilTotal
  {
    PartitionStats(0, p.reqsTotal + p.reqs, 0, p.repliesTotal + p.replies,
                   0, p.reqsUtilTotal + p.reqsUtil, 0, p.cycleUtilTotal + p.cycleUtil)
  }

  /** Adds each per-slot count of the current launch into its total and zeroes it. */
  method RollOverPerKernel(current: array<nat>, total: array<nat>)
    requires current != total && current.Length == total.Length
    modifies current, total
    ensures forall k :: 0 <= k < total.Length ==> total[k] == old(total[k] + current[k]) && current[k] == 0
  {
    for k := 0 to total.Length
      invariant forall j :: 0 <= j < k ==> total[j] == old(total[j] + current[j])
      invariant forall j :: k <= j < total.Length ==> total[j] == old(total[j])
      invariant forall j :: 0 <= j < current.Length ==> current[j] == old(current[j])
      modifies total
    {
      total[k] := total[k] + current[k];
    }
    for k := 0 to current.Length
      invariant forall j :: 0 <= j < k ==> current[j] == 0
      invariant forall j :: 0 <= j < total.Length ==> total[j] == old(total[j] + current[j])
      modifies current
    {
      current[k] := 0;
    }
  }

  class GpgpuSim {
    const config: SimConfig
    /** The slot table; a null entry is an empty slot. */
    const runningKernels: array<KernelInfo?>
    /** Instructions per kernel slot in the current launch, and accumulated over launches. */
    const gpuSimInsnPerKernel: array<nat>
    const gpuTotSimInsnPerKernel: array<nat>

    var lastIssuedKernel: nat
    /** Uids of the kernels that have been selected at least once, in first-selection order. */
    var executedKernelUids: seq<nat>
    /** Uids of completed kernels, oldest first. */
    var finishedKernel: seq<nat>
    var lastClusterIssue: nat

    var gpuSimCycle: nat
    var gpuTotSimCycle: nat
    var gpuSimInsn: nat
    var gpuTotSimInsn: nat
    var gpuTotIssuedCta: nat
    var totalCtaLaunched: nat
    var gpuCompletedCta: nat
    var lastGpuSimInsn: nat
    var gpuDeadlock: bool

    /** The memory-partition parallelism counters (filled in by the memory side of a cycle). */
    var partition: PartitionStats

    var coreTime: real
    var icntTime: real
    var l2Time: real
    var dramTime: real

    /** The kernels currently in the table. */
    ghost function Resident(): set<KernelInfo?>
      reads this, runningKernels
    {
      set i | 0 <= i < runningKernels.Length && runningKernels[i] != null :: runningKernels[i]
    }

    /** The CTA-quota arrays of the kernels currently in the table. */
    ghost function QuotaArrays(): set<array<nat>>
      reads this, runningKernels
    {
      set i | 0 <= i < runningKernels.Length && runningKernels[i] != null :: runningKernels[i].maxCtasPerCore
    }

    /** No two slots hold kernels with the same uid (so no kernel sits in two slots). */
    ghost predicate DistinctUids()
      reads this, runningKernels
    {
      forall i, j ::
        (0 <= i < runningKernels.Length && 0 <= j < runningKernels.Length && i != j &&
         runningKernels[i] != null && runningKernels[j] != null) ==>
        runningKernels[i].uid != runningKernels[j].uid
    }

    /**
     * A kernel with CTAs left that is not the last-issued one has never been selected. This
     * is what makes the round-robin's first-selection assertion hold.
     */
    ghost predicate LedgerFresh()
      reads this, runningKernels, Resident()
    {
      forall i ::
        (0 <= i < runningKernels.Length && i != lastIssuedKernel &&
         runningKernels[i] != null && !runningKernels[i].noMoreCtasToRun) ==>
        runningKernels[i].uid !in executedKernelUids
    }

    ghost predicate Valid()
      reads this, runningKernels, Resident()
    {
      0 < config.maxConcurrentKernel == runningKernels.Length &&
      gpuSimInsnPerKernel.Length == config.maxConcurrentKernel &&
      gpuTotSimInsnPerKernel.Length == config.maxConcurrentKernel &&
      gpuSimInsnPerKernel != gpuTotSimInsnPerKernel &&
      lastIssuedKernel < runningKernels.Length &&
      0 < config.nSimtClusters && lastClusterIssue < config.nSimtClusters &&
      0 < config.nSimtCoresPerCluster &&
      (forall i :: 0 <= i < runningKernels.Length && runningKernels[i] != null ==>
        runningKernels[i].maxCtasPerCore.Length == config.nSimtCoresPerCluster) &&
      DistinctUids() && NoDup(executedKernelUids) && LedgerFresh()
    }

    constructor (cfg: SimConfig)
      requires 0 < cfg.maxConcurrentKernel && 0 < cfg.nSimtClusters && 0 < cfg.nSimtCoresPerCluster
      ensures Valid() && config == cfg
      ensures fresh(runningKernels) && fresh(gpuSimInsnPerKernel) && fresh(gpuTotSimInsnPerKernel)
      ensures forall i :: 0 <= i < runningKernels.Length ==> runningKernels[i] == null
      ensures lastIssuedKernel == 0 && lastClusterIssue == cfg.nSimtClusters - 1
      ensures executedKernelUids == [] && finishedKernel == []
      ensures gpuSimInsn == 0 && gpuTotSimInsn == 0 && gpuTotIssuedCta == 0 && gpuCompletedCta == 0
      ensures totalCtaLaunched == 0 && !gpuDeadlock
    {
      config := cfg;
      runningKernels := new KernelInfo?[cfg.maxConcurrentKernel](_ => null);
      gpuSimInsnPerKernel := new nat[cfg.maxConcurrentKernel](_ => 0);
      gpuTotSimInsnPerKernel := new nat[cfg.maxConcurrentKernel](_ => 0);
      lastIssuedKernel := 0;
      // so that the first issue goes to cluster 0
      lastClusterIssue := cfg.nSimtClusters - 1;
      executedKernelUids, finishedKernel := [], [];
      gpuSimCycle, gpuTotSimCycle, gpuSimInsn, gpuTotSimInsn := 0, 0, 0, 0;
      gpuTotIssuedCta, totalCtaLaunched, gpuCompletedCta := 0, 0, 0;
      lastGpuSimInsn, gpuDeadlock := 0, false;
      partition := PartitionStats(0, 0, 0, 0, 0, 0, 0, 0);
      coreTime, icntTime, l2Time, dramTime := 0.0, 0.0, 0.0, 0.0;
    }

    /** The current cycle over all launches, as stamped on kernels. */
    function Now(): nat
      reads this
    {
      gpuSimCycle + gpuTotSimCycle
    }

    // ---------------------------------------------------------------- slot table

    /** A slot a new kernel may take: empty, or holding a completed kernel. */
    predicate SlotFree(i: nat)
      requires i < runningKernels.Length
      reads this, runningKernels, Resident()
    {
      runningKernels[i] == null || runningKernels[i].done
    }

    /** The first free slot at or after from, or the table size if there is none. */
    function FirstFree(from: nat): (n: nat)
      requires from <= runningKernels.Length
      reads this, runningKernels, Resident()
      ensures from <= n <= runningKernels.Length
      ensures n < runningKernels.Length ==> SlotFree(n)
      ensures forall i :: from <= i < n ==> !SlotFree(i)
      decreases runningKernels.Length - from
    {
      if from == runningKernels.Length || SlotFree(from) then from else FirstFree(from + 1)
    }

    /** A new kernel can be placed exactly when some slot is free. */
    function CanStartKernel(): (r: bool)
      reads this, runningKernels, Resident()
      ensures r <==> exists i :: 0 <= i < runningKernels.Length && SlotFree(i)
    {
      FirstFree(0) < runningKernels.Length
    }

    /** The configured ceiling on issued CTAs has been reached (a zero ceiling never is). */
    predicate HitMaxCtaCount()
      reads this
      ensures config.gpuMaxCtaOpt == 0 ==> !HitMaxCtaCount()
      // once the issued-CTA ceiling that stops the simulation is reached, no new CTA is selected either
      ensures config.gpuMaxCtaOpt != 0 && gpuTotIssuedCta >= config.gpuMaxCtaOpt ==> HitMaxCtaCount()
    {
      config.gpuMaxCtaOpt != 0 && gpuTotIssuedCta + totalCtaLaunched >= config.gpuMaxCtaOpt
    }

    /** The kernel may supply another CTA: it exists, has CTAs left, and the ceiling is not hit. */
    predicate KernelMoreCtaLeft(k: KernelInfo?)
      reads this, k
      ensures HitMaxCtaCount() ==> !KernelMoreCtaLeft(k)
      ensures k == null ==> !KernelMoreCtaLeft(k)
      ensures k != null && !HitMaxCtaCount() ==> (KernelMoreCtaLeft(k) <==> !k.noMoreCtasToRun)
    {
      !HitMaxCtaCount() && k != null && !k.noMoreCtasToRun
    }

    /** The first slot at or after from whose kernel has CTAs left, or the table size. */
    function FirstWithCtas(from: nat): (n: nat)
      requires from <= runningKernels.Length
      reads this, runningKernels, Resident()
      ensures from <= n <= runningKernels.Length
      ensures n < runningKernels.Length ==> runningKernels[n] != null && !runningKernels[n].noMoreCtasToRun
      ensures forall i :: from <= i < n ==> runningKernels[i] == null || runningKernels[i].noMoreCtasToRun
      decreases runningKernels.Length - from
    {
      if from == runningKernels.Length || (runningKernels[from] != null && !runningKernels[from].noMoreCtasToRun)
      then from
      else FirstWithCtas(from + 1)
    }

    /** Some resident kernel has CTAs left and the global CTA ceiling has not been reached. */
    function GetMoreCtaLeft(): (r: bool)
      reads this, runningKernels, Resident()
      ensures r <==> (!HitMaxCtaCount() &&
        exists i :: 0 <= i < runningKernels.Length && runningKernels[i] != null && !runningKernels[i].noMoreCtasToRun)
    {
      !HitMaxCtaCount() && FirstWithCtas(0) < runningKernels.Length
    }

    /** Some CTA is left to issue exactly when some resident kernel passes the per-kernel test. */
    lemma GetMoreCtaLeftIsSomeKernel()
      ensures GetMoreCtaLeft() <==>
        exists i :: 0 <= i < runningKernels.Length && KernelMoreCtaLeft(runningKernels[i])
    {
      if GetMoreCtaLeft() {
        assert KernelMoreCtaLeft(runningKernels[FirstWithCtas(0)]);
      }
    }

    /**
     * Places a kernel in the lowest free slot with status Init; a CTA wider than a core's
     * thread budget is rejected and nothing changes.
     */
    method Launch(kinfo: KernelInfo) returns (outcome: LaunchOutcome)
      requires Valid()
      requires forall i :: 0 <= i < runningKernels.Length && runningKernels[i] != null ==>
        runningKernels[i].uid != kinfo.uid
      requires kinfo.uid !in executedKernelUids
      requires kinfo.maxCtasPerCore.Length == config.nSimtCoresPerCluster
      requires kinfo.threadsPerCta <= config.nThreadPerShader ==> CanStartKernel()
      modifies runningKernels, kinfo`status
      ensures Valid()
      ensures kinfo.threadsPerCta > config.nThreadPerShader ==>
        outcome == CtaTooLarge && runningKernels[..] == old(runningKernels[..]) && kinfo.status == old(kinfo.status)
      ensures kinfo.threadsPerCta <= config.nThreadPerShader ==>
        outcome == Launched(old(FirstFree(0))) && outcome.slot < runningKernels.Length &&
        runningKernels[..] == old(runningKernels[..])[outcome.slot := kinfo] && kinfo.status == Init
    {
      if kinfo.threadsPerCta > config.nThreadPerShader {
        return CtaTooLarge;
      }
      var n := 0;
      while n < runningKernels.Length && !(runningKernels[n] == null || runningKernels[n].done)
        invariant n <= runningKernels.Length
        invariant forall i :: 0 <= i < n ==> !SlotFree(i)
      {
        n := n + 1;
      }
      assert n < runningKernels.Length;
      assert SlotFree(n);
      assert n == FirstFree(0);
      kinfo.status := Init;
      runningKernels[n] := kinfo;
      outcome := Launched(n);
    }
 
    /** The slot the round-robin visits n-th: it starts one past the last-issued slot. */
    function RoundRobinSlot(n: nat): nat
      requires 0 < config.maxConcurrentKernel
      reads this
    {
      (n + lastIssuedKernel + 1) % config.maxConcurrentKernel
    }

    /** The last-issued kernel still has CTAs to run, so selection sticks to it. */
    predicate Sticky()
      requires lastIssuedKernel < runningKernels.Length
      reads this, runningKernels, Resident()
    {
      runningKernels[lastIssuedKernel] != null && !runningKernels[lastIssuedKernel].noMoreCtasToRun
    }

    /** The first visit at or after from whose kernel may supply a CTA, or the table size. */
    function FirstEligible(from: nat): (n: nat)
      requires 0 < config.maxConcurrentKernel == runningKernels.Length && from <= runningKernels.Length
      reads this, runningKernels, Resident()
      ensures from <= n <= runningKernels.Length
      ensures n < runningKernels.Length ==> KernelMoreCtaLeft(runningKernels[RoundRobinSlot(n)])
      ensures forall m :: from <= m < n ==> !KernelMoreCtaLeft(runningKernels[RoundRobinSlot(m)])
      decreases runningKernels.Length - from
    {
      if from == runningKernels.Length || KernelMoreCtaLeft(runningKernels[RoundRobinSlot(from)]) then from
      else FirstEligible(from + 1)
    }

    /**
     * Chooses the kernel that supplies the next CTA. If the last-issued kernel still has CTAs,
     * it is chosen again (whatever the global CTA ceiling says). Otherwise the slots are visited
     * round-robin from one past it, and the first whose kernel may supply a CTA becomes the
     * last-issued one. The first time a kernel is chosen its uid joins the ledger and its start
     * cycle is stamped. With no candidate the result is null and nothing changes.
     */
    method SelectKernel() returns (k: KernelInfo?)
      requires Valid()
      modifies this`lastIssuedKernel, this`executedKernelUids, Resident()`startCycle
      ensures Valid()
      ensures old(Sticky()) ==>
        k == runningKernels[lastIssuedKernel] && lastIssuedKernel == old(lastIssuedKernel) &&
        k != null && (if k.uid in old(executedKernelUids)
                      then executedKernelUids == old(executedKernelUids) && k.startCycle == old(k.startCycle)
                      else executedKernelUids == old(executedKernelUids) + [k.uid] && k.startCycle == Now())
      ensures !old(Sticky()) && old(FirstEligible(0)) < runningKernels.Length ==>
        lastIssuedKernel == old(RoundRobinSlot(FirstEligible(0))) && k == runningKernels[lastIssuedKernel] &&
        k != null && old(k.uid !in executedKernelUids) &&
        executedKernelUids == old(executedKernelUids) + [k.uid] && k.startCycle == Now()
      ensures !old(Sticky()) && old(FirstEligible(0)) == runningKernels.Length ==>
        k == null && lastIssuedKernel == old(lastIssuedKernel) && executedKernelUids == old(executedKernelUids)
      ensures forall i :: 0 <= i < runningKernels.Length && runningKernels[i] != null && runningKernels[i] != k ==>
        runningKernels[i].startCycle == old(runningKernels[i].startCycle)
    {
      if runningKernels[lastIssuedKernel] != null && !runningKernels[lastIssuedKernel].noMoreCtasToRun {
        k := runningKernels[lastIssuedKernel];
        var launchUid := k.uid;
        if launchUid !in executedKernelUids {
          k.startCycle := gpuSimCycle + gpuTotSimCycle;
          executedKernelUids := executedKernelUids + [launchUid];
        }
        return;
      }
      var n := 0;
      while n < runningKernels.Length &&
            !KernelMoreCtaLeft(runningKernels[(n + lastIssuedKernel + 1) % config.maxConcurrentKernel])
        invariant n <= runningKernels.Length
        invariant forall m :: 0 <= m < n ==> !KernelMoreCtaLeft(runningKernels[RoundRobinSlot(m)])
      {
        n := n + 1;
      }
      if n == runningKernels.Length {
        return null;
      }
      assert KernelMoreCtaLeft(runningKernels[RoundRobinSlot(n)]);
      assert n == FirstEligible(0);
      var idx := (n + lastIssuedKernel + 1) % config.maxConcurrentKernel;
      // the sticky branch was not taken, so the round-robin never lands on the last-issued slot
      assert idx != lastIssuedKernel;
      k := runningKernels[idx];
      lastIssuedKernel := idx;
      k.startCycle := gpuSimCycle + gpuTotSimCycle;
      var launchUid := k.uid;
      assert launchUid !in executedKernelUids;
      executedKernelUids := executedKernelUids + [launchUid];
    }

    /** Pops the oldest finished-kernel uid, or answers 0 when the queue is empty. */
    method FinishedKernel() returns (uid: nat)
      modifies this`finishedKernel
      ensures old(finishedKernel) == [] ==> uid == 0 && finishedKernel == []
      ensures old(finishedKernel) != [] ==> uid == old(finishedKernel[0]) && finishedKernel == old(finishedKernel[1..])
    {
      if finishedKernel == [] {
        return 0;
      }
      uid := finishedKernel[0];
      finishedKernel := finishedKernel[1..];
    }

    /**
     * Retires a resident kernel: its uid joins the finished queue, its end cycle is stamped,
     * and exactly the slot holding it becomes empty.
     */
    method SetKernelDone(kernel: KernelInfo)
      requires Valid()
      requires exists i :: 0 <= i < runningKernels.Length && runningKernels[i] == kernel
      modifies this`finishedKernel, runningKernels, kernel`endCycle
      ensures Valid()
      ensures finishedKernel == old(finishedKernel) + [kernel.uid]
      ensures forall i :: 0 <= i < runningKernels.Length ==>
        runningKernels[i] == if old(runningKernels[i]) == kernel then null else old(runningKernels[i])
      ensures kernel.endCycle == Now()
    {
      finishedKernel := finishedKernel + [kernel.uid];
      var n := 0;
      while n < runningKernels.Length && runningKernels[n] != kernel
        invariant n <= runningKernels.Length
        invariant forall i :: 0 <= i < n ==> runningKernels[i] != kernel
      {
        n := n + 1;
      }
      assert n < runningKernels.Length;
      // distinct uids: no other slot holds this kernel
      assert forall i :: 0 <= i < runningKernels.Length && i != n ==> runningKernels[i] != kernel;
      kernel.endCycle := gpuSimCycle + gpuTotSimCycle;
      runningKernels[n] := null;
    }

    /** Retires every resident kernel in slot order, leaving the table empty. */
    method StopAllRunningKernels()
      requires Valid()
      modifies this`finishedKernel, runningKernels, Resident()`endCycle
      ensures Valid()
      ensures forall i :: 0 <= i < runningKernels.Length ==> runningKernels[i] == null
      ensures finishedKernel == old(finishedKernel) + UidsOf(old(runningKernels[..]))
      ensures forall i :: 0 <= i < runningKernels.Length && old(runningKernels[i]) != null ==>
        old(runningKernels[i]).endCycle == Now()
    {
      ghost var resident := runningKernels[..];
      var k := 0;
      while k < runningKernels.Length
        invariant k <= runningKernels.Length
        invariant Valid()
        invariant forall i :: 0 <= i < k ==> runningKernels[i] == null
        invariant forall i :: k <= i < runningKernels.Length ==> runningKernels[i] == resident[i]
        invariant finishedKernel == old(finishedKernel) + UidsOf(resident[..k])
        invariant forall i :: 0 <= i < k && resident[i] != null ==> resident[i].endCycle == Now()
      {
        assert resident[..k + 1][..k] == resident[..k];
        if runningKernels[k] != null {
          assert runningKernels[k] in old(Resident());
          // distinct uids: the kernels already retired are other objects
          assert forall i :: 0 <= i < k && resident[i] != null ==> resident[i].uid != resident[k].uid;
          SetKernelDone(runningKernels[k]);
          assert runningKernels[k] == null;
        }
        k := k + 1;
      }
      assert resident[..k] == resident;
    }
 
    // ---------------------------------------------------------------- clock domains

    /** The four virtual times. */
    function Times(): ClockTimes
      reads this
    {
      ClockTimes(coreTime, icntTime, l2Time, dramTime)
    }

    /**
     * Fires the domains whose virtual time is the earliest, advancing each by its own period;
     * L2 is compared first, then interconnect, DRAM and core, each against the earliest time.
     */
    method NextClockDomain() returns (mask: bv8)
      modifies this`coreTime, this`icntTime, this`l2Time, this`dramTime
      ensures mask == DueMask(old(Times()))
      ensures Times() == Advance(old(Times()), config.periods, mask)
    {
      var smallest := Min(Min(coreTime, icntTime), dramTime);
      mask := 0x00;
      if l2Time <= smallest {
        smallest := l2Time;
        mask := mask | L2;
        l2Time := l2Time + config.periods.l2;
      }
      if icntTime <= smallest {
        mask := mask | ICNT;
        icntTime := icntTime + config.periods.icnt;
      }
      if dramTime <= smallest {
        mask := mask | DRAM;
        dramTime := dramTime + config.periods.dram;
      }
      if coreTime <= smallest {
        mask := mask | CORE;
        coreTime := coreTime + config.periods.core;
      }
    }

    /** Restarts all four virtual times at zero. */
    method ReinitClockDomains()
      modifies this`coreTime, this`icntTime, this`l2Time, this`dramTime
      ensures Times() == ClockTimes(0.0, 0.0, 0.0, 0.0)
    {
      coreTime := 0.0;
      dramTime := 0.0;
      icntTime := 0.0;
      l2Time := 0.0;
    }

    // ---------------------------------------------------------------- liveness

    /** Some configured ceiling on cycles, instructions, issued or completed CTAs is reached. */
    predicate CeilingReached()
      reads this
    {
      (config.gpuMaxCycleOpt != 0 && gpuTotSimCycle + gpuSimCycle >= config.gpuMaxCycleOpt) ||
      (config.gpuMaxInsnOpt != 0 && gpuTotSimInsn + gpuSimInsn >= config.gpuMaxInsnOpt) ||
      (config.gpuMaxCtaOpt != 0 && gpuTotIssuedCta >= config.gpuMaxCtaOpt) ||
      (config.gpuMaxCompletedCtaOpt != 0 && gpuCompletedCta >= config.gpuMaxCompletedCtaOpt)
    }

    /**
     * Whether simulation goes on. The busy states of the clusters (some CTA not completed),
     * the memory partitions and the interconnect are inputs.
     */
    function Active(clusterNotCompleted: bool, memoryBusy: bool, icntBusy: bool): (r: bool)
      reads this, runningKernels, Resident()
      ensures CeilingReached() ==> !r
      ensures config.gpuDeadlockDetect && gpuDeadlock ==> !r
      ensures r ==> (clusterNotCompleted || memoryBusy || icntBusy ||
        exists i :: 0 <= i < runningKernels.Length && runningKernels[i] != null && !runningKernels[i].noMoreCtasToRun)
      ensures (!CeilingReached() && !(config.gpuDeadlockDetect && gpuDeadlock) &&
        (clusterNotCompleted || memoryBusy || icntBusy || GetMoreCtaLeft())) ==> r
    {
      if config.gpuMaxCycleOpt != 0 && gpuTotSimCycle + gpuSimCycle >= config.gpuMaxCycleOpt then false
      else if config.gpuMaxInsnOpt != 0 && gpuTotSimInsn + gpuSimInsn >= config.gpuMaxInsnOpt then false
      else if config.gpuMaxCtaOpt != 0 && gpuTotIssuedCta >= config.gpuMaxCtaOpt then false
      else if config.gpuMaxCompletedCtaOpt != 0 && gpuCompletedCta >= config.gpuMaxCompletedCtaOpt then false
      else if config.gpuDeadlockDetect && gpuDeadlock then false
      else clusterNotCompleted || memoryBusy || icntBusy || GetMoreCtaLeft()
    }

    /**
     * The deadlock test run after the cycle counter advances: on every window boundary, with
     * detection on, no instruction retired since the previous boundary flags a deadlock;
     * otherwise the boundary's instruction count becomes the new reference.
     */
    method DeadlockCheck()
      modifies this`gpuDeadlock, this`lastGpuSimInsn
      ensures gpuSimCycle % DeadlockWindow != 0 ==>
        gpuDeadlock == old(gpuDeadlock) && lastGpuSimInsn == old(lastGpuSimInsn)
      ensures gpuSimCycle % DeadlockWindow == 0 && config.gpuDeadlockDetect && gpuSimInsn == old(lastGpuSimInsn) ==>
        gpuDeadlock && lastGpuSimInsn == old(lastGpuSimInsn)
      ensures gpuSimCycle % DeadlockWindow == 0 && !(config.gpuDeadlockDetect && gpuSimInsn == old(lastGpuSimInsn)) ==>
        gpuDeadlock == old(gpuDeadlock) && lastGpuSimInsn == gpuSimInsn
      ensures old(gpuDeadlock) ==> gpuDeadlock
    {
      if gpuSimCycle % DeadlockWindow == 0 {
        if config.gpuDeadlockDetect && gpuSimInsn == lastGpuSimInsn {
          gpuDeadlock := true;
        } else {
          lastGpuSimInsn := gpuSimInsn;
        }
      }
    }

    // ---------------------------------------------------------------- statistics

    /**
     * Ends a launch's statistics window: each per-launch counter is added into its running
     * total and reset to zero, per kernel slot as well as globally.
     */
    method UpdateStats()
      requires Valid()
      modifies this`gpuSimCycle, this`gpuTotSimCycle, this`gpuSimInsn, this`gpuTotSimInsn
      modifies this`gpuTotIssuedCta, this`totalCtaLaunched, this`gpuCompletedCta, this`partition
      modifies gpuSimInsnPerKernel, gpuTotSimInsnPerKernel
      ensures Valid()
      ensures gpuTotSimCycle == old(gpuTotSimCycle + gpuSimCycle) && gpuSimCycle == 0
      ensures gpuTotSimInsn == old(gpuTotSimInsn + gpuSimInsn) && gpuSimInsn == 0
      ensures gpuTotIssuedCta == old(gpuTotIssuedCta + totalCtaLaunched) && totalCtaLaunched == 0
      ensures gpuCompletedCta == 0
      ensures partition == RolledOver(old(partition))
      ensures forall k :: 0 <= k < gpuSimInsnPerKernel.Length ==>
        gpuTotSimInsnPerKernel[k] == old(gpuTotSimInsnPerKernel[k] + gpuSimInsnPerKernel[k]) &&
        gpuSimInsnPerKernel[k] == 0
      // the ceilings compare grand totals, which a roll-over leaves as they were
      ensures HitMaxCtaCount() == old(HitMaxCtaCount())
      ensures Now() == old(Now())
    {
      gpuTotSimCycle := gpuTotSimCycle + gpuSimCycle;
      gpuTotSimInsn := gpuTotSimInsn + gpuSimInsn;
      RollOverPerKernel(gpuSimInsnPerKernel, gpuTotSimInsnPerKernel);
      gpuTotIssuedCta := gpuTotIssuedCta + totalCtaLaunched;
      partition := RolledOver(partition);
      gpuSimCycle := 0;
      gpuSimInsn := 0;
      totalCtaLaunched := 0;
      gpuCompletedCta := 0;
    }

    // ---------------------------------------------------------------- CTA distribution

    /** The first occupied slot at or after from, or the table size. */
    function FirstResident(from: nat): (n: nat)
      requires from <= runningKernels.Length
      reads runningKernels
      ensures from <= n <= runningKernels.Length
      ensures n < runningKernels.Length ==> runningKernels[n] != null
      ensures forall i :: from <= i < n ==> runningKernels[i] == null
      decreases runningKernels.Length - from
    {
      if from == runningKernels.Length || runningKernels[from] != null then from else FirstResident(from + 1)
    }

    /** The first co-executing kernel is the one with uid 1, whose quota the configuration fixes. */
    predicate QuotaTarget()
      reads runningKernels
    {
      FirstResident(0) < runningKernels.Length && runningKernels[FirstResident(0)].uid == 1
    }

    /**
     * Spreads the configured per-cluster CTA count of the first co-executing kernel over the
     * cores of a cluster: every core gets the quotient and the first remainder-many cores one
     * more. mcta1 is the per-core CTA limit the configuration computes for that kernel. The
     * second kernel's quota is computed elsewhere.
     */
    method SmkMaxCtaPerCore(mcta1: nat)
      requires Valid()
      requires QuotaTarget() ==> mcta1 * config.nSimtCoresPerCluster >= config.gpuSmkMctasKernel1
      modifies QuotaArrays()
      ensures Valid()
      ensures QuotaTarget() ==>
        var q := runningKernels[FirstResident(0)].maxCtasPerCore;
        q[..] == QuotaSplit(config.gpuSmkMctasKernel1, config.nSimtCoresPerCluster) &&
        Sum(q[..]) == config.gpuSmkMctasKernel1 &&
        forall c :: 0 <= c < q.Length ==> q[c] <= mcta1
      ensures !QuotaTarget() ==> forall a :: a in QuotaArrays() ==> a[..] == old(a[..])
    {
      var kernel1: KernelInfo? := null;
      var cont := 0;
      for k := 0 to runningKernels.Length
        invariant cont <= 2
        invariant cont == 0 <==> FirstResident(0) >= k
        invariant cont > 0 ==> kernel1 == runningKernels[FirstResident(0)]
      {
        if runningKernels[k] != null && cont < 2 {
          if cont == 0 {
            kernel1 := runningKernels[k];
          }
          cont := cont + 1;
        }
      }
      if cont == 0 {
        return;
      }
      assert 0 < cont < 3;
      if kernel1.uid == 1 {
        var k1Ctas := config.gpuSmkMctasKernel1;
        assert kernel1.maxCtasPerCore in QuotaArrays();
        AssignQuota(kernel1.maxCtasPerCore, k1Ctas);
        QuotaSplitSum(k1Ctas, config.nSimtCoresPerCluster);
        QuotaWithinCoreLimit(k1Ctas, config.nSimtCoresPerCluster, mcta1);
      }
    }

    /**
     * One CTA-issue round: the clusters are visited round-robin starting after the last one
     * that issued; issued[c] is what cluster c's own issue step hands out this round. Every
     * cluster's count is added to the launched-CTA counter, and the last visited cluster that
     * issued anything is remembered. With a co-execution quota configured, the first kernel's
     * per-core quota is refreshed first.
     */
    method IssueBlock2Core(issued: seq<nat>, mcta1: nat)
      requires Valid()
      requires |issued| == config.nSimtClusters
      requires !(config.gpuSmkMctasKernel1 != 0 && config.gpuSmtSMsKernel1 != 0)
      requires config.gpuSmkMctasKernel1 != 0 && QuotaTarget() ==>
        mcta1 * config.nSimtCoresPerCluster >= config.gpuSmkMctasKernel1
      modifies this`lastClusterIssue, this`totalCtaLaunched, QuotaArrays()
      ensures Valid()
      ensures totalCtaLaunched == old(totalCtaLaunched) + Sum(issued)
      ensures lastClusterIssue == LastIssuer(VisitOrder(issued, old(lastClusterIssue)), old(lastClusterIssue), |issued|)
      ensures config.gpuSmkMctasKernel1 != 0 && QuotaTarget() ==>
        var q := runningKernels[FirstResident(0)].maxCtasPerCore;
        q[..] == QuotaSplit(config.gpuSmkMctasKernel1, config.nSimtCoresPerCluster) &&
        Sum(q[..]) == config.gpuSmkMctasKernel1 &&
        forall c :: 0 <= c < q.Length ==> q[c] <= mcta1
      ensures config.gpuSmkMctasKernel1 == 0 || !QuotaTarget() ==>
        forall a :: a in QuotaArrays() ==> a[..] == old(a[..])
    {
      if config.gpuSmkMctasKernel1 != 0 {
        SmkMaxCtaPerCore(mcta1);
      }
      var launched, lastIssuer := VisitClusters(issued, lastClusterIssue);
      lastClusterIssue, totalCtaLaunched := lastIssuer, totalCtaLaunched + launched;
    }
  }
}
