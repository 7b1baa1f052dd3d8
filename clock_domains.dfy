/**
 * The four clock domains of the simulator (shader cores, interconnect, L2 cache, DRAM),
 * each with a virtual time that advances by its own period whenever the domain fires.
 * This module gives the reference meaning of one tick: the domains that fire are exactly
 * those whose virtual time is the earliest, and each of them moves on by one period.
 */
module ClockDomains {

  /** Domain flags of the tick mask. */
  const CORE: bv8 := 0x01
  const L2: bv8 := 0x02
  const DRAM: bv8 := 0x04
  const ICNT: bv8 := 0x08

  datatype ClockTimes = ClockTimes(core: real, icnt: real, l2: real, dram: real)

  /** Periods are given positive values (the reciprocal of each configured frequency). */
  datatype ClockPeriods = ClockPeriods(core: real, icnt: real, l2: real, dram: real)

  predicate PositivePeriods(p: ClockPeriods)
  {
    p.core > 0.0 && p.icnt > 0.0 && p.l2 > 0.0 && p.dram > 0.0
  }

  function Min(a: real, b: real): real
  {
    if a <= b then a else b
  }

  /** The earliest of the four virtual times. */
  function Earliest(t: ClockTimes): (m: real)
    ensures m <= t.core && m <= t.icnt && m <= t.l2 && m <= t.dram
    ensures m == t.core || m == t.icnt || m == t.l2 || m == t.dram
  {
    Min(Min(t.core, t.icnt), Min(t.l2, t.dram))
  }

  /** Whether flag is set in mask. */
  predicate Has(mask: bv8, flag: bv8)
  {
    mask & flag != 0
  }

  /** The domains due this tick: exactly those whose virtual time is the earliest. */
  function DueMask(t: ClockTimes): bv8
  {
    (if t.core == Earliest(t) then CORE else 0) |
    (if t.l2 == Earliest(t) then L2 else 0) |
    (if t.dram == Earliest(t) then DRAM else 0) |
    (if t.icnt == Earliest(t) then ICNT else 0)
  }

  /** Each flagged domain advances by exactly its own period; the others keep their time. */
  function Advance(t: ClockTimes, p: ClockPeriods, mask: bv8): ClockTimes
  {
    ClockTimes(
      if Has(mask, CORE) then t.core + p.core else t.core,
      if Has(mask, ICNT) then t.icnt + p.icnt else t.icnt,
      if Has(mask, L2) then t.l2 + p.l2 else t.l2,
      if Has(mask, DRAM) then t.dram + p.dram else t.dram)
  }

  /** The due mask names each domain exactly when its time is the earliest. */
  lemma DueMaskFlags(t: ClockTimes)
    ensures Has(DueMask(t), CORE) <==> t.core == Earliest(t)
    ensures Has(DueMask(t), L2) <==> t.l2 == Earliest(t)
    ensures Has(DueMask(t), DRAM) <==> t.dram == Earliest(t)
    ensures Has(DueMask(t), ICNT) <==> t.icnt == Earliest(t)
  {
  }

  /** Some domain fires on every tick. */
  lemma DueMaskNeverEmpty(t: ClockTimes)
    ensures DueMask(t) != 0
  {
    DueMaskFlags(t);
  }

  /**
   * A tick moves simulated time forward: after the due domains advance, the earliest
   * virtual time is strictly later than before, and no time ever goes back.
   */
  lemma TickAdvancesEarliest(t: ClockTimes, p: ClockPeriods)
    requires PositivePeriods(p)
    ensures var t' := Advance(t, p, DueMask(t));
      Earliest(t') > Earliest(t) &&
      t'.core >= t.core && t'.icnt >= t.icnt && t'.l2 >= t.l2 && t'.dram >= t.dram
  {
    DueMaskFlags(t);
  }
}
