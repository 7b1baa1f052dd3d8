/**
 * A resident kernel launch as the scheduler sees it. Its identity, CTA size and progress
 * flags (whether CTAs remain to be issued, whether it has completed) are maintained by the
 * kernel's own bookkeeping, which is not part of this model; the scheduler reads them and
 * writes the status and the first-issue and end cycles.
 */
module Kernels {

  /** Lifecycle of a kernel under the co-execution scheduler. */
  datatype KernelStatus = Init | Ready | Reschedule | Evicted | Done

  class KernelInfo {
    /** Unique launch id. */
    const uid: nat
    /** Threads in one CTA (x * y * z of the block dimension). */
    const threadsPerCta: nat
    /** Per-core CTA quota, one entry per core position of a cluster. */
    const maxCtasPerCore: array<nat>

    var status: KernelStatus
    var startCycle: nat
    var endCycle: nat
    /** No CTA of this kernel remains to be issued. */
    var noMoreCtasToRun: bool
    /** Every CTA has been issued and has retired. */
    var done: bool

    constructor (id: nat, ctaThreads: nat, coresPerCluster: nat)
      ensures uid == id && threadsPerCta == ctaThreads
      ensures fresh(maxCtasPerCore) && maxCtasPerCore.Length == coresPerCluster
      ensures status == Init && startCycle == 0 && endCycle == 0
      ensures !noMoreCtasToRun && !done
    {
      uid := id;
      threadsPerCta := ctaThreads;
      maxCtasPerCore := new nat[coresPerCluster](_ => 0);
      status := Init;
      startCycle, endCycle := 0, 0;
      noMoreCtasToRun, done := false, false;
    }
  }
}
