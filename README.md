# CTA admission and scheduling in a GPU simulator

This project models, in Dafny, how the GPU timing simulator decides where thread blocks
(CTAs) run. Every piece comes from `src/gpgpu-sim/gpu-sim.cc`:

- **Per-core admission** (`ShaderCore`, `CtaPadding`, `HwtidScan`). A shader core charges each
  resident CTA against four budgets: threads (padded to whole warps), shared memory, registers
  (rounded to a multiple of four per thread) and CTA slots. It also searches its hardware
  thread-id bitmap for a block-aligned run of free ids. Releasing a CTA gives back exactly what
  admitting it took.
- **The running-kernel table** (`GpgpuSim`, `Kernels`). `launch` fills the lowest free slot.
  Kernel selection sticks to the last-issued kernel while it has CTAs, then goes round-robin
  under the global CTA ceiling. The ledger of kernels already selected stays duplicate-free.
  The finished-kernel queue is first in, first out.
- **Clock domains** (`ClockDomains`, `GpgpuSim.GpgpuSim.NextClockDomain`). Four virtual times
  (core, interconnect, L2, DRAM). On each tick the domains whose time is the earliest fire, and
  each advances by its own period.
- **Liveness**. `active()` stops at any configured ceiling or when a deadlock has been
  flagged. Deadlock is tested on 50,000-cycle boundaries. `update_stats` rolls each per-launch
  counter into its total.
- **CTA distribution** (`CtaQuota`, `GridIndex`). The cluster round-robin counts issued CTAs
  and remembers the last cluster that issued. A per-cluster CTA count is split across the
  cores of a cluster. The grid stepper walks CTA indices x first, then y, then z.
- **The co-execution search** (`FlexSched`). This is the direction and bounds logic of the
  online hill-climb over the first kernel's per-core quota. The float weighted speedup becomes
  a boolean `improved`. The capacity table `confs` is a parameter. `exit(0)` becomes a
  `Finish` result. In the source, the call to this search is commented out (line 2527).

Stateful parts of the source are classes with `modifies` frames:
- `ShaderCore.ShaderCoreCtx`, with the thread-id bitmap as a fixed-capacity `array<bool>`;
- `GpgpuSim.GpgpuSim`, with the slot table as an `array<KernelInfo?>`;
- `Kernels.KernelInfo`.

Their methods are proved against pure specification functions (`Admissible`, `Charge`,
`Issue`, `Release`, `Scan`, `QuotaSplit`, `DueMask`, `Advance`, `VisitOrder`, `LastIssuer`,
`FirstFree`, `FirstEligible`). The properties promised by the source are lemmas about those
functions.

`GpgpuSim.GpgpuSim.Valid` keeps these invariants:
- the uids in the table are distinct;
- the executed-kernel ledger has no duplicates;
- every kernel with CTAs left, other than the last-issued one, is not yet in the ledger.

The last invariant is what makes the round-robin's assertion at lines 769-771 provable.

## Model

| member | source | states |
|---|---|---|
| CtaPadding.PaddedCtaSize | src/gpgpu-sim/gpu-sim.cc:1685-1688 | the padded CTA size is a multiple of the warp size, holds every thread, and is less than one warp larger than the CTA |
| CtaPadding.PaddedIsLeast | src/gpgpu-sim/gpu-sim.cc:1685-1688 | the padded size is the least warp multiple that holds the CTA |
| CtaPadding.RegsPerThread | src/gpgpu-sim/gpu-sim.cc:1700 | `(regs + 3) & ~3` is a multiple of 4 no smaller than regs and less than regs + 4 |
| CtaPadding.UsedRegs | src/gpgpu-sim/gpu-sim.cc:1700 | a CTA is charged at least padded * regs registers, and a multiple of 4 |
| HwtidScan.ScanSound | src/gpgpu-sim/gpu-sim.cc:1660-1671 | a found offset is aligned on the block size, below the thread budget, and its block is free; every aligned block before it, and every block when nothing is found, has an id in use |
| HwtidScan.Scan | src/gpgpu-sim/gpu-sim.cc:1662-1671 | the probe loop: a found offset lies between the starting offset and the thread budget and its whole block is free; a scan that starts at or past the budget finds nothing |
| HwtidScan.ScanFindsLeastClearBlock | src/gpgpu-sim/gpu-sim.cc:1660-1671 | unless a probe runs past the bitmap, the scan returns exactly the least aligned offset below the budget whose block is free, and -1 exactly when no such offset exists |
| HwtidScan.ResetUndoesSet | src/gpgpu-sim/gpu-sim.cc:1737-1739 | clearing a block that was just marked gives back the original bitmap |
| HwtidScan.BlockMayPassBudget | src/gpgpu-sim/gpu-sim.cc:1662-1670 | only the block's start is kept below n_thread_per_shader: with a budget of 6, blocks of 4 and id 0 in use, the answer 4 covers ids 4 to 7 |
| ShaderCore.Charge | src/gpgpu-sim/gpu-sim.cc:1706-1710 | charging an admissible CTA keeps every counter within its budget and leaves the bitmap and slot map alone |
| ShaderCore.Admissible | src/gpgpu-sim/gpu-sim.cc:1690-1704 | occupy's four budget tests plus the thread-id probe: an admissible CTA never probes past the bitmap, and some block of free ids starting below the thread budget exists for it |
| ShaderCore.Issue | src/gpgpu-sim/gpu-sim.cc:1807-1812 | a committed admission keeps every counter within budget and the bitmap at its capacity |
| ShaderCore.Release | src/gpgpu-sim/gpu-sim.cc:1724-1753 | a release that passes the underflow assertions keeps every counter within budget, forgets the slot and keeps the bitmap's capacity |
| ShaderCore.ReleaseUndoesIssue | src/gpgpu-sim/gpu-sim.cc:1722-1754 | releasing a CTA right after its committed admission into an unused slot passes every underflow assertion and restores the four counters, the thread-id bitmap and the slot map exactly |
| ShaderCore.ShaderCoreCtx.CanIssue1Block | src/gpgpu-sim/gpu-sim.cc:1648-1658 | in concurrent-kernel mode the answer is "the kernel's CTA limit is at least 1 and the admission test passes"; otherwise it is "active CTAs below the kernel's limit" |
| ShaderCore.ShaderCoreCtx.FindAvailableHwtid | src/gpgpu-sim/gpu-sim.cc:1660-1679 | returns the scan's offset (or -1); with occupy, exactly the ids of the found block become set and no other bit changes; without occupy, nothing changes |
| ShaderCore.ShaderCoreCtx.SetHwtidRange | src/gpgpu-sim/gpu-sim.cc:1674-1675 | the id-by-id loop leaves the bitmap equal to the old one with exactly the ids of [start, start + n) set (or, on release at lines 1737-1739, reset) |
| ShaderCore.ShaderCoreCtx.OccupyShaderResource1Block | src/gpgpu-sim/gpu-sim.cc:1681-1720 | returns true iff threads, an aligned free thread-id block, shared memory, rounded registers and one more CTA all fit; with occupy and success each counter grows by exactly its amount, otherwise nothing changes; no counter ever exceeds its budget |
| ShaderCore.ShaderCoreCtx.ReleaseShaderResource1Block | src/gpgpu-sim/gpu-sim.cc:1722-1754 | in concurrent-kernel mode the new occupancy is `Release` of the old one, which gives back exactly what admission charged; otherwise nothing changes |
| ShaderCore.ShaderCoreCtx.IssueBlock2Core | src/gpgpu-sim/gpu-sim.cc:1765-1813 | takes the first free CTA slot below the mode's limit (the core's CTA limit, or the kernel's max_cta in exclusive mode) and marks it with the thread count (line 1855), one more active CTA (line 1872); in concurrent mode the occupancy becomes `Issue` of the old and the thread range starts at the first aligned free block; otherwise occupancy is unchanged and the range starts at slot * padded size; the range holds exactly threads_per_cta threads |
| CtaQuota.QuotaSplitSum | src/gpgpu-sim/gpu-sim.cc:1947-1950 | the per-core quotas add up to exactly the per-cluster CTA count |
| CtaQuota.QuotaSplitBalanced | src/gpgpu-sim/gpu-sim.cc:1947-1950 | quotas are non-increasing in core index and any two differ by at most one |
| CtaQuota.QuotaWithinCoreLimit | src/gpgpu-sim/gpu-sim.cc:1944-1950 | under the assertion max_cta * n >= k, no core's quota exceeds max_cta |
| CtaQuota.AssignQuota | src/gpgpu-sim/gpu-sim.cc:1947-1950 | the two passes over the quota array leave it equal to the split of k over its cores |
| GridIndex.IncrementXThenYThenZ | src/gpgpu-sim/gpu-sim.cc:636-646 | from an index inside the grid, the step moves exactly one place forward in x-then-y-then-z order and lands inside the grid or on (0, 0, bound.z), and the last index steps to (0, 0, bound.z); z never passes bound.z |
| GridIndex.StepLinear | src/gpgpu-sim/gpu-sim.cc:637-645 | each of the three carry cases adds exactly one to the linear position and lands inside the grid or on (0, 0, bound.z), and the step from the last index lands on (0, 0, bound.z) |
| ClockDomains.DueMaskFlags | src/gpgpu-sim/gpu-sim.cc:1894-1915 | each domain's flag is set exactly when its time equals the minimum of the four times |
| ClockDomains.DueMaskNeverEmpty | src/gpgpu-sim/gpu-sim.cc:1894-1915 | some domain fires on every tick |
| ClockDomains.TickAdvancesEarliest | src/gpgpu-sim/gpu-sim.cc:1894-1915 | with positive periods a tick strictly increases the earliest time and never moves a time back |
| GpgpuSim.GpgpuSim.NextClockDomain | src/gpgpu-sim/gpu-sim.cc:1894-1915 | the returned mask is exactly the set of domains whose time is the earliest, each flagged domain advances by its own period and the others are unchanged |
| GpgpuSim.GpgpuSim.ReinitClockDomains | src/gpgpu-sim/gpu-sim.cc:966-971 | all four virtual times restart at zero |
| GpgpuSim.GpgpuSim.constructor | src/gpgpu-sim/gpu-sim.cc:880-884 | an empty table of max_concurrent_kernel slots, last-issued slot 0, last issuing cluster n_simt_clusters - 1 (so the first round starts at cluster 0), and zeroed counters (lines 834-839) |
| GpgpuSim.GpgpuSim.FirstFree | src/gpgpu-sim/gpu-sim.cc:679-685 | the result is the lowest slot at or after from that is empty or holds a finished kernel, or the table size when none is |
| GpgpuSim.GpgpuSim.CanStartKernel | src/gpgpu-sim/gpu-sim.cc:689-695 | true iff some slot is empty or holds a finished kernel |
| GpgpuSim.GpgpuSim.HitMaxCtaCount | src/gpgpu-sim/gpu-sim.cc:697-703 | a zero ceiling is never hit, and once the issued-CTA total reaches a non-zero ceiling the ceiling is hit |
| GpgpuSim.GpgpuSim.KernelMoreCtaLeft | src/gpgpu-sim/gpu-sim.cc:705-711 | false once the CTA ceiling is hit or for a missing kernel; otherwise true exactly when the kernel still has CTAs to run |
| GpgpuSim.GpgpuSim.GetMoreCtaLeftIsSomeKernel | src/gpgpu-sim/gpu-sim.cc:705-722 | get_more_cta_left holds exactly when kernel_more_cta_left holds for the kernel in some slot |
| GpgpuSim.GpgpuSim.Launch | src/gpgpu-sim/gpu-sim.cc:648-686 | a CTA wider than n_thread_per_shader is rejected and nothing changes; otherwise the kernel lands in the lowest slot that is empty or holds a finished kernel, its status becomes Init, and every other slot is unchanged |
| GpgpuSim.GpgpuSim.GetMoreCtaLeft | src/gpgpu-sim/gpu-sim.cc:713-722 | true iff the global CTA ceiling is not hit and some resident kernel has CTAs left |
| GpgpuSim.GpgpuSim.FirstWithCtas | src/gpgpu-sim/gpu-sim.cc:716-719 | the result is the lowest slot at or after from whose kernel has CTAs left, or the table size |
| GpgpuSim.GpgpuSim.FirstEligible | src/gpgpu-sim/gpu-sim.cc:760-777 | the result is the first round-robin visit, counting from one past the last-issued slot, whose kernel passes kernel_more_cta_left, or the table size |
| GpgpuSim.GpgpuSim.SelectKernel | src/gpgpu-sim/gpu-sim.cc:745-779 | sticky: the last-issued kernel is returned while it has CTAs, whatever the ceiling; otherwise the first round-robin candidate under the ceiling becomes last-issued; on first selection the uid is appended to the ledger and the start cycle stamped; no candidate gives null; the ledger stays duplicate-free, as lines 769-771 assert |
| GpgpuSim.GpgpuSim.FinishedKernel | src/gpgpu-sim/gpu-sim.cc:781-786 | pops the oldest finished uid, or answers 0 on an empty queue |
| GpgpuSim.GpgpuSim.SetKernelDone | src/gpgpu-sim/gpu-sim.cc:788-800 | the uid joins the finished queue, the end cycle is stamped, and exactly the slot holding the kernel becomes empty |
| GpgpuSim.GpgpuSim.StopAllRunningKernels | src/gpgpu-sim/gpu-sim.cc:802-810 | every slot ends empty, the finished queue grows by the resident uids in slot order, and every stopped kernel's end cycle is the current cycle (line 794) |
| GpgpuSim.GpgpuSim.Active | src/gpgpu-sim/gpu-sim.cc:973-996 | false whenever a cycle, instruction, issued-CTA or completed-CTA ceiling is reached or a deadlock is flagged with detection on; true only if some cluster, memory partition, the interconnect or a kernel with CTAs left is busy; true otherwise when any of them is |
| GpgpuSim.GpgpuSim.DeadlockCheck | src/gpgpu-sim/gpu-sim.cc:2798-2805 | off a 50,000-cycle boundary nothing changes; on one, with detection on and no instruction retired since the previous boundary, the deadlock flag is set; otherwise the reference count is refreshed; a flagged deadlock is never cleared |
| GpgpuSim.GpgpuSim.UpdateStats | src/gpgpu-sim/gpu-sim.cc:1045-1074 | every per-launch counter (cycles, instructions, per-slot instructions, launched CTAs, partition counters) is added into its total and zeroed, and completed CTAs are zeroed; the global CTA ceiling test and the current cycle are unchanged |
| GpgpuSim.RolledOver | src/gpgpu-sim/gpu-sim.cc:1054-1064 | the partition counters of the launch are zeroed and the grand total of all eight counters is preserved |
| GpgpuSim.RollOverPerKernel | src/gpgpu-sim/gpu-sim.cc:1051-1069 | each slot's total gains that slot's launch count, which is then zeroed |
| GpgpuSim.GpgpuSim.FirstResident | src/gpgpu-sim/gpu-sim.cc:1923-1931 | the result is the lowest occupied slot at or after from, or the table size |
| GpgpuSim.GpgpuSim.SmkMaxCtaPerCore | src/gpgpu-sim/gpu-sim.cc:1918-1953 | when the first resident kernel has uid 1, its quota array becomes the split of the configured per-cluster count, sums to that count, and no entry exceeds the kernel's per-core CTA limit; otherwise the first kernel's array is unchanged |
| GpgpuSim.VisitOrder | src/gpgpu-sim/gpu-sim.cc:2531-2532 | the i-th cluster visited is (i + last + 1) mod n |
| GpgpuSim.LastIssuerIsLastNonZero | src/gpgpu-sim/gpu-sim.cc:2561-2564 | the recorded cluster is the last one in visiting order that issued a CTA, or the previous record if none did |
| GpgpuSim.VisitClusters | src/gpgpu-sim/gpu-sim.cc:2530-2565 | the launched count is the sum of all clusters' counts, and the remembered cluster is `LastIssuer` of the visit order |
| GpgpuSim.GpgpuSim.IssueBlock2Core | src/gpgpu-sim/gpu-sim.cc:2518-2566 | under the one-strategy assertion, the launched-CTA counter grows by the sum of every cluster's count, the last issuing cluster is recorded; with a per-cluster quota configured and uid 1 the first resident kernel, its quota array becomes the split of that quota, sums to it and stays within the per-core CTA limit; otherwise no quota array changes |
| FlexSched.TotalShift | src/gpgpu-sim/gpu-sim.cc:2197-2200 | moving every core's quota by d moves the first kernel's total by n * d |
| FlexSched.Decide | src/gpgpu-sim/gpu-sim.cc:2154-2193 | the search stops exactly on a failed sample once committed to a direction, reporting the last accepted configuration; a move steps forward exactly when the new phase is not backward; an accepted sample becomes the reference; a committed direction is kept |
| FlexSched.SampleStepAsWritten | src/gpgpu-sim/gpu-sim.cc:2195-2212 | the step as written: a table read outside the 64 entries happens only on a move; a search that goes on has its leading quota in [1, 31] and a total inside the table |
| FlexSched.Start | src/gpgpu-sim/gpu-sim.cc:2096-2121 | the search starts with no reference sample, one quota per core, and the second kernel's quotas summing to its table entry |
| FlexSched.Gate | src/gpgpu-sim/gpu-sim.cc:2133-2147 | a sample is taken only in an open window, once the window's length has passed and neither kernel exceeds its quota; a window opens only after the warm-up; past the warm-up with no excess, something always happens |
| FlexSched.FirstSampleTriesForward | src/gpgpu-sim/gpu-sim.cc:2189-2193 | with no valid reference, the sample is accepted and one forward step is tried |
| FlexSched.CommittedFailureStops | src/gpgpu-sim/gpu-sim.cc:2177-2180 | a failed sample after the search has committed to a direction ends it with the last accepted configuration |
| FlexSched.FirstFailureReverses | src/gpgpu-sim/gpu-sim.cc:2182-2185 | a failed first forward step reverses once, two steps back, keeping the earlier reference |
| FlexSched.ContinueWithinBounds | src/gpgpu-sim/gpu-sim.cc:2195-2212 | with the corrected step, a search that goes on keeps the first kernel's leading quota in [1, 31], its total within the table, and the second kernel's quotas summing to the table entry |
| FlexSched.SearchProgresses | src/gpgpu-sim/gpu-sim.cc:2157-2212 | a committed search keeps its direction and its remaining room shrinks while staying positive, so it ends |
| FlexSched.SampleStep | src/gpgpu-sim/gpu-sim.cc:2195-2212 | the step with the range check first never reads outside the capacity table |
| FlexSched.TableOverrunExample | src/gpgpu-sim/gpu-sim.cc:2202 | from two cores at 28 CTAs, the step as written reads entry 64 of the 64-entry table, while the corrected step finishes with the current configuration |
| FlexSched.CorrectedAgreesInsideTable | src/gpgpu-sim/gpu-sim.cc:2195-2212 | whenever the step as written stays inside the table, the corrected step gives the same result |

## Left out

- I/O, `printf`, `abort` messages, statistics printing, the liveness messages, and the deadlock dump are omitted. `abort()` in `launch` is the `CtaTooLarge` outcome.
- The memory, interconnect and L2 dispatch inside `cycle()` is not modelled, because it calls partition, interconnect and cache code outside this file. Of `cycle()`, only the deadlock block is modelled.
- The functional thread setup of `shader_core_ctx::issue_block2core` (lines 1815-1879) is not modelled. The thread count it reports is the parameter `nThreadsInBlock`.
- Foreign collaborators become parameters:
  - `max_cta` is `KernelResources.maxCta` and the `mcta1` parameter.
  - `ptx_sim_kernel_info` is `KernelResources.smem`/`regs`.
  - Each cluster's `issue_block2core*` result is the sequence `issued`.
  - The cluster, memory-partition and interconnect busy queries are booleans.
  - `smk_max_cta` for the second kernel (line 1957) is not modelled.
  - `set_max_cta` (line 1768) is defined elsewhere. It is modelled as taking the kernel's `max_cta` as the exclusive-mode CTA limit.
- `kernel_info_t`'s `done()`, `no_more_ctas_to_run()` and `get_uid()` are fields of `Kernels.KernelInfo`, because their definitions are not part of this model.
- `get_num_running_kernels()` is not shown. It is taken to be the table size.
- `MAX_THREAD_PER_SM` (the bitmap's capacity) is not shown. It is the length of `occupiedHwtid`.
- GpgpuSim.GpgpuSim.Launch: requires the new kernel's uid to be fresh (not in the table and not in the ledger). The source relies on the CUDA front end for this, and the ledger's duplicate-freedom depends on it.
- GpgpuSim.GpgpuSim.SelectKernel: the invariant behind lines 769-771 also assumes that a kernel's "no more CTAs" flag never goes back to false. That flag is maintained by kernel code not part of this model.
- GpgpuSim.GpgpuSim.SmkMaxCtaPerCore: the call `smk_max_cta(*kernel1, *kernel2)` at lines 1956-1958 is not modelled, so the model says nothing about the second kernel's quota array. Without that call, the second kernel runs no CTAs.
- ShaderCore.ShaderCoreCtx.IssueBlock2Core: `kernel.inc_running()` (line 1772) is not modelled. The kernel's running-CTA count belongs to kernel code outside this model.
- The executed-kernel *names* list is omitted. It mirrors the uid ledger with strings used only for printing.
- `select_alternative_kernel` (lines 723-742) is not modelled. Nothing in the modelled code calls it.
- GpgpuSim.GpgpuSim.UpdateStats: `memlatstat_lat_pw()` and the float occupancy statistics are omitted (foreign, floating point).
- Counters are unbounded naturals: the source's unsigned 32-bit and 64-bit wrap-around is not modelled.
- Clock times and periods are exact reals, not `double`. The periods are taken as given positive values, and `init_clock_domains` is left out.
- ShaderCore.ShaderCoreCtx.FindAvailableHwtid: requires that the scan never probes past the bitmap's capacity (no `Overrun`). A block that straddles the capacity would make the source test bits outside the bitset.
- ShaderCore.ShaderCoreCtx.IssueBlock2Core: the source calls `occupy_shader_resource_1block` inside `assert`. The model performs the call and states its success as a precondition, as the source's own assertions do.
- The C++ `assert`s on callers become `requires`:
  - the slot existence in `launch`;
  - the presence check in `set_kernel_done`;
  - the underflow checks in `release_shader_resource_1block`;
  - in `release_shader_resource_1block`, that the cleared span stays inside the bitset (`ReleaseAllowed`). A reset past its end would throw `std::out_of_range`;
  - the free slot and free map entry in `issue_block2core`.
- FlexSched:
  - the weighted-speedup arithmetic (lines 2148-2156) is the boolean `improved`, and the two IPC values become `ipcValid`;
  - the hard-coded `confs` table is a parameter of natural numbers;
  - `exit(0)` is `Finish`;
  - the per-kernel start cycle and instruction annotations at 2138-2141 are omitted.
- FlexSched.Start: requires the configured first-kernel count to index the table, which the source reads at line 2112 unchecked.
- `single_execution_two_kernels`, `dynamic_smk_max_cta_per_core`, `coexecution_performace` and `smk_reset_excedded_ctas` are not modelled. Their calls are commented out (lines 2525-2528).
- Option registration, the power model, cache reconfiguration and memcpy are not modelled. They are outside the scheduling core.

## Findings

| source | as written | input that shows it | evidently intended | confidence | as-written member | corrected member |
|---|---|---|---|---|---|---|
| src/gpgpu-sim/gpu-sim.cc:2202 | `confs[new_cta1_num]` is read before the first kernel's quota is checked against its range at line 2209, so a step past the end of the range indexes outside the 64-entry table | two cores at 28 CTAs each and no reference sample yet: the first forward step adds 4 per core, giving total 64, and entry 64 is read | check the range (and that the total indexes the table) before reading `confs`, and end the search with the current configuration | not executed | FlexSched.TableOverrunExample | FlexSched.SampleStep |
