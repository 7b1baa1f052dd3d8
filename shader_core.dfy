/**
 * Per-core CTA admission: a shader core charges each resident CTA against four budgets
 * (threads, shared memory, registers, CTA slots) and against its hardware-thread-id bitmap,
 * and gives the same amounts back when the CTA is released.
 */
module ShaderCore {
  import opened CtaPadding
  import opened HwtidScan

  /** The static budgets of one shader core. */
  datatype ShaderConfig = ShaderConfig(
    nThreadPerShader: nat,
    warpSize: nat,
    shmemSize: nat,
    shaderRegisters: nat,
    maxCtaPerCore: nat,
    concurrentKernelSm: bool)

  /**
   * What admission needs to know of a kernel: its CTA size, the shared memory and per-thread
   * registers of its entry function, and the CTA limit the configuration computes for it.
   */
  datatype KernelResources = KernelResources(threadsPerCta: nat, smem: nat, regs: nat, maxCta: nat)

  /** The occupancy state of a core: four counters, the thread-id bitmap, and CTA slot to base thread id. */
  datatype CoreState = CoreState(
    nThreads: nat,
    shmem: nat,
    regs: nat,
    ctas: nat,
    hwtid: seq<bool>,
    ctaToHwtid: map<nat, nat>)

  /** The thread span one CTA of k occupies. */
  function Padded(cfg: ShaderConfig, k: KernelResources): nat
    requires cfg.warpSize > 0
  {
    PaddedCtaSize(k.threadsPerCta, cfg.warpSize)
  }

  /** Registers one CTA of k takes. */
  function CtaRegs(cfg: ShaderConfig, k: KernelResources): nat
    requires cfg.warpSize > 0
  {
    UsedRegs(Padded(cfg, k), k.regs)
  }

  /** No occupancy counter exceeds its budget. */
  predicate WithinBudgets(cfg: ShaderConfig, s: CoreState)
  {
    s.nThreads <= cfg.nThreadPerShader && s.shmem <= cfg.shmemSize &&
    s.regs <= cfg.shaderRegisters && s.ctas <= cfg.maxCtaPerCore
  }

  /**
   * One more CTA of k fits: its padded threads, an aligned block of free thread ids,
   * its shared memory, its rounded registers and one more CTA slot all stay within budget.
   */
  predicate Admissible(cfg: ShaderConfig, s: CoreState, k: KernelResources)
    requires cfg.warpSize > 0
    ensures Admissible(cfg, s, k) ==> ProbeInRange(cfg, s, k)
    ensures Admissible(cfg, s, k) ==>
      exists t: nat :: t < cfg.nThreadPerShader && BlockClear(s.hwtid, t, Padded(cfg, k))
  {
    var p := Padded(cfg, k);
    var probe := Scan(s.hwtid, cfg.nThreadPerShader, p, 0);
    assert probe.Found? ==> BlockClear(s.hwtid, probe.start, p);
    s.nThreads + p <= cfg.nThreadPerShader &&
    Scan(s.hwtid, cfg.nThreadPerShader, p, 0).Found? &&
    s.shmem + k.smem <= cfg.shmemSize &&
    s.regs + CtaRegs(cfg, k) <= cfg.shaderRegisters &&
    s.ctas + 1 <= cfg.maxCtaPerCore
  }

  /** The admission test never probes past the bitmap's capacity. */
  predicate ProbeInRange(cfg: ShaderConfig, s: CoreState, k: KernelResources)
    requires cfg.warpSize > 0
  {
    s.nThreads + Padded(cfg, k) <= cfg.nThreadPerShader ==>
      Scan(s.hwtid, cfg.nThreadPerShader, Padded(cfg, k), 0) != Overrun
  }

  /** The four counters after one CTA of k is charged. */
  function Charge(cfg: ShaderConfig, s: CoreState, k: KernelResources): (r: CoreState)
    requires cfg.warpSize > 0
    requires Admissible(cfg, s, k)
    ensures WithinBudgets(cfg, s) ==> WithinBudgets(cfg, r)
    ensures r.hwtid == s.hwtid && r.ctaToHwtid == s.ctaToHwtid
  {
    s.(nThreads := s.nThreads + Padded(cfg, k), shmem := s.shmem + k.smem,
       regs := s.regs + CtaRegs(cfg, k), ctas := s.ctas + 1)
  }

  /**
   * A committed admission in concurrent-kernel mode: the counters are charged, the first
   * aligned free block of thread ids is marked, and the CTA slot records the block's start.
   */
  function Issue(cfg: ShaderConfig, s: CoreState, k: KernelResources, slot: nat): (r: CoreState)
    requires cfg.warpSize > 0
    requires Admissible(cfg, s, k)
    ensures WithinBudgets(cfg, s) ==> WithinBudgets(cfg, r)
    ensures |r.hwtid| == |s.hwtid|
  {
    var start := Scan(s.hwtid, cfg.nThreadPerShader, Padded(cfg, k), 0).start;
    Charge(cfg, s, k).(hwtid := SetBlock(s.hwtid, start, Padded(cfg, k), true),
                       ctaToHwtid := s.ctaToHwtid[slot := start])
  }

  /** The base thread id a release reads for slot: the recorded one, or 0 when none is recorded. */
  function ReleaseStart(s: CoreState, slot: nat): nat
  {
    if slot in s.ctaToHwtid then s.ctaToHwtid[slot] else 0
  }

  /** Releasing one CTA of k from slot neither underflows a counter nor resets an id past capacity. */
  predicate ReleaseAllowed(cfg: ShaderConfig, s: CoreState, slot: nat, k: KernelResources)
    requires cfg.warpSize > 0
  {
    s.nThreads >= Padded(cfg, k) &&
    ReleaseStart(s, slot) + Padded(cfg, k) <= |s.hwtid| &&
    s.shmem >= k.smem && s.regs >= CtaRegs(cfg, k) && s.ctas >= 1
  }

  /** Concurrent-kernel release: every amount is given back, the span is cleared and the slot forgotten. */
  function Release(cfg: ShaderConfig, s: CoreState, slot: nat, k: KernelResources): (r: CoreState)
    requires cfg.warpSize > 0
    requires ReleaseAllowed(cfg, s, slot, k)
    ensures WithinBudgets(cfg, s) ==> WithinBudgets(cfg, r)
    ensures slot !in r.ctaToHwtid && |r.hwtid| == |s.hwtid|
  {
    var p := Padded(cfg, k);
    CoreState(s.nThreads - p, s.shmem - k.smem, s.regs - CtaRegs(cfg, k), s.ctas - 1,
              SetBlock(s.hwtid, ReleaseStart(s, slot), p, false), s.ctaToHwtid - {slot})
  }

  /**
   * Release is the exact inverse of a committed admission into a slot that held nothing:
   * the four counters, the thread-id bitmap and the slot map all come back unchanged.
   */
  lemma ReleaseUndoesIssue(cfg: ShaderConfig, s: CoreState, k: KernelResources, slot: nat)
    requires cfg.warpSize > 0
    requires Admissible(cfg, s, k)
    requires slot !in s.ctaToHwtid
    ensures ReleaseAllowed(cfg, Issue(cfg, s, k, slot), slot, k)
    ensures Release(cfg, Issue(cfg, s, k, slot), slot, k) == s
  {
    var p := Padded(cfg, k);
    var start := Scan(s.hwtid, cfg.nThreadPerShader, p, 0).start;
    if p > 0 {
      ScanSound(s.hwtid, cfg.nThreadPerShader, p, 0);
    }
    assert BlockClear(s.hwtid, start, p);
    var t := Issue(cfg, s, k, slot);
    assert ReleaseStart(t, slot) == start;
    ResetUndoesSet(s.hwtid, start, p);
    assert t.ctaToHwtid - {slot} == s.ctaToHwtid;
  }

  /** A shader core's occupancy bookkeeping. */
  class ShaderCoreCtx {
    const config: ShaderConfig
    /** Thread ids in use; its length is the bitmap's fixed capacity. */
    const occupiedHwtid: array<bool>
    /** Per CTA slot: threads still running in it, 0 when the slot is free. */
    const ctaStatus: array<nat>
    var occupiedNThreads: nat
    var occupiedShmem: nat
    var occupiedRegs: nat
    var occupiedCtas: nat
    var occupiedCtaToHwtid: map<nat, nat>
    var nActiveCta: nat
    /** CTA limit for the current kernel outside concurrent-kernel mode. */
    var kernelMaxCtaPerShader: nat

    /** The occupancy state as a value. */
    function State(): CoreState
      reads this, occupiedHwtid
    {
      CoreState(occupiedNThreads, occupiedShmem, occupiedRegs, occupiedCtas,
                occupiedHwtid[..], occupiedCtaToHwtid)
    }

    ghost predicate Valid()
      reads this, occupiedHwtid
    {
      config.warpSize > 0 &&
      config.nThreadPerShader <= occupiedHwtid.Length &&
      config.maxCtaPerCore <= ctaStatus.Length &&
      kernelMaxCtaPerShader <= ctaStatus.Length &&
      WithinBudgets(config, State())
    }

    constructor (cfg: ShaderConfig, hwtidCapacity: nat, ctaCapacity: nat)
      requires cfg.warpSize > 0
      requires cfg.nThreadPerShader <= hwtidCapacity && cfg.maxCtaPerCore <= ctaCapacity
      ensures Valid() && fresh(occupiedHwtid) && fresh(ctaStatus)
      ensures config == cfg && occupiedHwtid.Length == hwtidCapacity && ctaStatus.Length == ctaCapacity
      ensures State() == CoreState(0, 0, 0, 0, seq(hwtidCapacity, _ => false), map[])
      ensures nActiveCta == 0 && forall i :: 0 <= i < ctaCapacity ==> ctaStatus[i] == 0
    {
      config := cfg;
      occupiedHwtid := new bool[hwtidCapacity](_ => false);
      ctaStatus := new nat[ctaCapacity](_ => 0);
      occupiedNThreads, occupiedShmem, occupiedRegs, occupiedCtas := 0, 0, 0, 0;
      occupiedCtaToHwtid := map[];
      nActiveCta, kernelMaxCtaPerShader := 0, 0;
    }

    /**
     * Whether one more CTA of k may be issued: in concurrent-kernel mode the admission
     * test without committing; otherwise a plain count of active CTAs against the kernel's limit.
     */
    method CanIssue1Block(k: KernelResources) returns (ok: bool)
      requires Valid()
      requires config.concurrentKernelSm && k.maxCta >= 1 ==> ProbeInRange(config, State(), k)
      ensures ok == if config.concurrentKernelSm then k.maxCta >= 1 && Admissible(config, State(), k)
                    else nActiveCta < k.maxCta
    {
      if config.concurrentKernelSm {
        if k.maxCta < 1 {
          return false;
        }
        ok := OccupyShaderResource1Block(k, false);
      } else {
        ok := nActiveCta < k.maxCta;
      }
    }

    /**
     * Block-aligned search for ctaSize consecutive free thread ids below the thread budget;
     * returns the block's start, or -1. With occupy, marks exactly that block in use.
     */
    method FindAvailableHwtid(ctaSize: nat, occupy: bool) returns (r: int)
      requires Valid()
      requires Scan(occupiedHwtid[..], config.nThreadPerShader, ctaSize, 0) != Overrun
      modifies if occupy then {occupiedHwtid} else {}
      ensures r == Offset(Scan(old(occupiedHwtid[..]), config.nThreadPerShader, ctaSize, 0))
      ensures occupiedHwtid[..] ==
        if occupy && r >= 0 then SetBlock(old(occupiedHwtid[..]), r as nat, ctaSize, true)
        else old(occupiedHwtid[..])
    {
      ghost var bits := occupiedHwtid[..];
      var n := config.nThreadPerShader;
      var step := 0;
      while step < n
        invariant Scan(bits, n, ctaSize, step) == Scan(bits, n, ctaSize, 0)
        decreases n - step
      {
        var hwTid := step;
        while hwTid < step + ctaSize
          invariant step <= hwTid <= step + ctaSize
          invariant forall i :: step <= i < hwTid ==> i < |bits| && !bits[i]
        {
          if occupiedHwtid[hwTid] {
            break;
          }
          hwTid := hwTid + 1;
        }
        if hwTid == step + ctaSize {
          break;
        }
        assert BlockBusy(bits, step, ctaSize);
        step := step + ctaSize;
      }
      if step >= n {
        return -1;
      }
      assert Scan(bits, n, ctaSize, 0) == Found(step);
      if occupy {
        SetHwtidRange(step, ctaSize, true);
      }
      r := step;
    }

    /** Sets (v) or resets (!v) every thread id of [start, start + n), one id at a time. */
    method SetHwtidRange(start: nat, n: nat, v: bool)
      requires start + n <= occupiedHwtid.Length
      modifies occupiedHwtid
      ensures occupiedHwtid[..] == SetBlock(old(occupiedHwtid[..]), start, n, v)
    {
      ghost var bits := occupiedHwtid[..];
      var i := start;
      while i < start + n
        invariant start <= i <= start + n
        invariant forall j :: 0 <= j < occupiedHwtid.Length ==>
          occupiedHwtid[j] == if start <= j < i then v else bits[j]
      {
        occupiedHwtid[i] := v;
        i := i + 1;
      }
      assert occupiedHwtid[..] == SetBlock(bits, start, n, v);
    }

    /**
     * The admission test for one CTA of k; with occupy and a positive answer, charges the
     * four counters. The thread-id bitmap is only searched here, never marked.
     */
    method OccupyShaderResource1Block(k: KernelResources, occupy: bool) returns (ok: bool)
      requires Valid()
      requires ProbeInRange(config, State(), k)
      modifies if occupy then {this} else {}
      ensures Valid()
      ensures ok == old(Admissible(config, State(), k))
      ensures State() == if occupy && ok then Charge(config, old(State()), k) else old(State())
      ensures nActiveCta == old(nActiveCta) && kernelMaxCtaPerShader == old(kernelMaxCtaPerShader)
    {
      var padded := k.threadsPerCta;
      var warpSize := config.warpSize;
      if padded % warpSize != 0 {
        padded := (padded / warpSize + 1) * warpSize;
      }
      assert padded == Padded(config, k);
      if occupiedNThreads + padded > config.nThreadPerShader {
        return false;
      }
      var start := FindAvailableHwtid(padded, false);
      if start == -1 {
        return false;
      }
      if occupiedShmem + k.smem > config.shmemSize {
        return false;
      }
      var usedRegs := padded * ((k.regs + 3) / 4 * 4);
      if occupiedRegs + usedRegs > config.shaderRegisters {
        return false;
      }
      if occupiedCtas + 1 > config.maxCtaPerCore {
        return false;
      }
      if occupy {
        occupiedNThreads := occupiedNThreads + padded;
        occupiedShmem := occupiedShmem + k.smem;
        occupiedRegs := occupiedRegs + usedRegs;
        occupiedCtas := occupiedCtas + 1;
      }
      ok := true;
    }

    /**
     * Gives back what one CTA of k held in hardware slot hwCtaId: in concurrent-kernel mode
     * the four counters, its thread-id span and its slot record; otherwise nothing changes.
     */
    method ReleaseShaderResource1Block(hwCtaId: nat, k: KernelResources)
      requires Valid()
      requires config.concurrentKernelSm ==> ReleaseAllowed(config, State(), hwCtaId, k)
      modifies this, occupiedHwtid
      ensures Valid()
      ensures State() == if config.concurrentKernelSm then Release(config, old(State()), hwCtaId, k)
                         else old(State())
      ensures nActiveCta == old(nActiveCta) && kernelMaxCtaPerShader == old(kernelMaxCtaPerShader)
    {
      if config.concurrentKernelSm {
        ghost var s := State();
        var padded := k.threadsPerCta;
        var warpSize := config.warpSize;
        if padded % warpSize != 0 {
          padded := (padded / warpSize + 1) * warpSize;
        }
        assert padded == Padded(config, k);
        occupiedNThreads := occupiedNThreads - padded;
        var startThread := if hwCtaId in occupiedCtaToHwtid then occupiedCtaToHwtid[hwCtaId] else 0;
        SetHwtidRange(startThread, padded, false);
        occupiedCtaToHwtid := occupiedCtaToHwtid - {hwCtaId};
        occupiedShmem := occupiedShmem - k.smem;
        var usedRegs := padded * ((k.regs + 3) / 4 * 4);
        occupiedRegs := occupiedRegs - usedRegs;
        occupiedCtas := occupiedCtas - 1;
      }
    }

    /** The first free CTA slot below limit is i. */
    ghost predicate FirstFreeSlot(i: nat, limit: nat)
      reads ctaStatus
    {
      i < limit && i < ctaStatus.Length && ctaStatus[i] == 0 &&
      forall j :: 0 <= j < i ==> ctaStatus[j] != 0
    }

    /**
     * The slot and thread-range part of launching one CTA of k on this core: commit the
     * admission (concurrent mode) or take the kernel's CTA limit (exclusive mode), take the
     * first free CTA slot, and choose the CTA's thread span: the first aligned free block in
     * concurrent mode, slot * padded size otherwise. nThreadsInBlock is the number of threads
     * the functional engine reports as initialised for the CTA.
     */
    method IssueBlock2Core(k: KernelResources, nThreadsInBlock: nat)
      returns (freeCtaHwId: nat, startThread: nat, endThread: nat)
      requires Valid()
      requires config.concurrentKernelSm ==> Admissible(config, State(), k)
      requires !config.concurrentKernelSm ==> k.maxCta <= ctaStatus.Length
      requires var limit := if config.concurrentKernelSm then config.maxCtaPerCore else k.maxCta;
        exists i :: 0 <= i < limit && ctaStatus[i] == 0
      requires config.concurrentKernelSm ==>
        forall i :: FirstFreeSlot(i, config.maxCtaPerCore) ==> i !in occupiedCtaToHwtid
      requires 0 < nThreadsInBlock <= config.nThreadPerShader
      modifies this, occupiedHwtid, ctaStatus
      ensures Valid()
      ensures old(FirstFreeSlot(freeCtaHwId, if config.concurrentKernelSm then config.maxCtaPerCore else k.maxCta))
      ensures ctaStatus[..] == old(ctaStatus[..])[freeCtaHwId := nThreadsInBlock]
      ensures nActiveCta == old(nActiveCta) + 1
      ensures endThread == startThread + k.threadsPerCta
      ensures config.concurrentKernelSm ==>
        State() == Issue(config, old(State()), k, freeCtaHwId) &&
        startThread == Scan(old(occupiedHwtid[..]), config.nThreadPerShader, Padded(config, k), 0).start &&
        kernelMaxCtaPerShader == old(kernelMaxCtaPerShader)
      ensures !config.concurrentKernelSm ==>
        State() == old(State()) && kernelMaxCtaPerShader == k.maxCta &&
        startThread == freeCtaHwId * Padded(config, k)
    {
      ghost var s := State();
      if !config.concurrentKernelSm {
        kernelMaxCtaPerShader := k.maxCta;
      } else {
        var admitted := OccupyShaderResource1Block(k, true);
        assert admitted;
      }
      var maxCtaPerCore := if config.concurrentKernelSm then config.maxCtaPerCore else kernelMaxCtaPerShader;
      var i := 0;
      while i < maxCtaPerCore
        invariant i <= maxCtaPerCore
        invariant forall j :: 0 <= j < i ==> ctaStatus[j] != 0
      {
        if ctaStatus[i] == 0 {
          break;
        }
        i := i + 1;
      }
      freeCtaHwId := i;
      var padded := k.threadsPerCta;
      if k.threadsPerCta % config.warpSize != 0 {
        padded := (k.threadsPerCta / config.warpSize + 1) * config.warpSize;
      }
      assert padded == Padded(config, k);
      if !config.concurrentKernelSm {
        startThread := freeCtaHwId * padded;
      } else {
        var found := FindAvailableHwtid(padded, true);
        startThread := found as nat;
        occupiedCtaToHwtid := occupiedCtaToHwtid[freeCtaHwId := startThread];
      }
      endThread := startThread + k.threadsPerCta;
      ctaStatus[freeCtaHwId] := nThreadsInBlock;
      nActiveCta := nActiveCta + 1;
    }
  }
}
