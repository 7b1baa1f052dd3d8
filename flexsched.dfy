/**
 * The direction and bounds logic of the online co-execution search: a one-dimensional
 * hill-climb over the first kernel's per-core CTA quota. Each sample is compared with the
 * last accepted one; an improvement keeps the current direction, a first failure reverses it
 * once, and a failure after that ends the search with the last accepted configuration. The
 * second kernel's quota is looked up in a capacity table indexed by the first kernel's total.
 * Whether a sample improved on the previous one (weighted speedup above 1) is an input.
 */
module FlexSched {
  import opened SeqSum
  import opened CtaQuota

  /** Upper end of the first kernel's per-core quota range (exclusive). */
  const MaxCtas1PerCore: int := 32
  /** Size of one search step in CTAs per pair of cores. */
  const MaxCtas1Inc: int := 8
  /** Entries of the capacity table: second-kernel CTAs for each first-kernel total. */
  const ConfsSize: nat := 64
  /** Cycles to wait after a configuration change before a sampling window may open. */
  const WarmUp: nat := 30000
  /** Length of one sampling window, and the minimum spacing of any two gate decisions. */
  const SampleWindow: nat := 10000

  /** The search phase: the first comparison, then committed to forward or backward. */
  datatype SearchMode = InitialSearch | ForwardSearch | BackwardSearch

  /** A configuration's sample: its CTA totals, and whether both kernels' IPCs are non-zero. */
  datatype PerfSample = PerfSample(numCtas1: int, numCtas2: int, ipcValid: bool)

  /** The search state: phase, last accepted sample, and the two kernels' per-core quotas. */
  datatype SearchState = SearchState(mode: SearchMode, prev: PerfSample, quota1: seq<int>, quota2: seq<nat>)

  /** What a comparison decides: move the quota by inc (with new phase and reference), or stop. */
  datatype Move = Move(inc: int, mode: SearchMode, prev: PerfSample) | Stop(numCtas1: int, numCtas2: int)

  /** The outcome of one sample: keep searching, report a final configuration, or read past the table. */
  datatype StepResult =
    | Continue(state: SearchState)
    | Finish(numCtas1: int, numCtas2: int)
    | TableOverrun(index: int)

  /** What the sampling gate does on a scheduling call. */
  datatype GateAction = Wait | OpenWindow | TakeSample

  /** Integer division rounding toward zero, as C's / on int. */
  function TruncDiv(a: int, b: int): int
    requires b > 0
  {
    if a >= 0 then a / b else -((-a) / b)
  }

  /**
   * Sum of a sequence of integers. The quotas here are signed: a backward step may take them
   * below zero before the range check, so SeqSum's sum over naturals does not apply.
   */
  function Total(q: seq<int>): int
  {
    if |q| == 0 then 0 else q[0] + Total(q[1..])
  }

  /** Every core's quota moved by the same amount d. */
  function Shift(q: seq<int>, d: int): (r: seq<int>)
    ensures |r| == |q|
    ensures forall c :: 0 <= c < |q| ==> r[c] == q[c] + d
  {
    seq(|q|, c requires 0 <= c < |q| => q[c] + d)
  }

  /** Moving every core's quota by d moves the total by d per core. */
  lemma {:induction false} TotalShift(q: seq<int>, d: int)
    ensures Total(Shift(q, d)) == Total(q) + |q| * d
  {
    if |q| > 0 {
      assert Shift(q, d)[1..] == Shift(q[1..], d);
      TotalShift(q[1..], d);
    }
  }

  /**
   * The comparison of a new sample with the last accepted one. With no valid reference yet the
   * first configuration is accepted and a forward step is tried; an improvement is accepted and
   * keeps (or, from the first comparison, commits to) the forward direction, or keeps the
   * backward one; a failure in a committed direction stops with the last accepted
   * configuration; a failure of the first forward step reverses with a double step back.
   */
  function Decide(mode: SearchMode, prev: PerfSample, curr: PerfSample, improved: bool): (m: Move)
    ensures m.Stop? <==> prev.ipcValid && !improved && mode != InitialSearch
    ensures m.Stop? ==> m.numCtas1 == prev.numCtas1 && m.numCtas2 == prev.numCtas2
    ensures m.Move? ==> (m.inc > 0 <==> m.mode != BackwardSearch)
    ensures m.Move? && (improved || !prev.ipcValid) ==> m.prev == curr
    ensures m.Move? && prev.ipcValid && mode != InitialSearch ==> m.mode == mode
  {
    if !prev.ipcValid then Move(MaxCtas1Inc, InitialSearch, curr)
    else if improved then
      Move(if mode == BackwardSearch then -MaxCtas1Inc else MaxCtas1Inc,
           if mode == InitialSearch then ForwardSearch else mode,
           curr)
    else if mode != InitialSearch then Stop(prev.numCtas1, prev.numCtas2)
    else Move(-2 * MaxCtas1Inc, BackwardSearch, prev)
  }

  /**
   * One sample, with the capacity table read before the first kernel's quota is checked
   * against its range: a new total outside the table is an out-of-range read.
   */
  function SampleStepAsWritten(s: SearchState, curr: PerfSample, improved: bool, confs: seq<nat>, n: nat): (r: StepResult)
    requires n > 0 && |s.quota1| == n && |confs| == ConfsSize
    ensures r.TableOverrun? ==> Decide(s.mode, s.prev, curr, improved).Move? && !(0 <= r.index < ConfsSize)
    ensures r.Continue? ==>
      |r.state.quota1| == n && 1 <= r.state.quota1[0] <= MaxCtas1PerCore - 1 && 0 <= Total(r.state.quota1) < ConfsSize
  {
    match Decide(s.mode, s.prev, curr, improved)
    case Stop(a, b) => Finish(a, b)
    case Move(inc, mode, prev) =>
      var q1 := Shift(s.quota1, TruncDiv(inc, 2));
      var newCta1 := Total(q1);
      if !(0 <= newCta1 < ConfsSize) then TableOverrun(newCta1)
      else if q1[0] > MaxCtas1PerCore - 1 || q1[0] < 1 then Finish(curr.numCtas1, curr.numCtas2)
      else Continue(SearchState(mode, prev, q1, QuotaSplit(confs[newCta1], n)))
  }

  /**
   * One sample, with the range check done before the table is read: a quota outside its
   * range, or a total with no table entry, ends the search with the current configuration.
   */
  function SampleStep(s: SearchState, curr: PerfSample, improved: bool, confs: seq<nat>, n: nat): (r: StepResult)
    requires n > 0 && |s.quota1| == n && |confs| == ConfsSize
    ensures !r.TableOverrun?
  {
    match Decide(s.mode, s.prev, curr, improved)
    case Stop(a, b) => Finish(a, b)
    case Move(inc, mode, prev) =>
      var q1 := Shift(s.quota1, TruncDiv(inc, 2));
      var newCta1 := Total(q1);
      if q1[0] > MaxCtas1PerCore - 1 || q1[0] < 1 || !(0 <= newCta1 < ConfsSize) then
        Finish(curr.numCtas1, curr.numCtas2)
      else Continue(SearchState(mode, prev, q1, QuotaSplit(confs[newCta1], n)))
  }

  /**
   * The search's starting point once both kernels are resident: the first kernel's
   * configured per-cluster CTAs spread over the cores, the second's looked up in the table,
   * no reference sample yet.
   */
  function Start(k1Ctas: nat, confs: seq<nat>, n: nat): (s: SearchState)
    requires n > 0 && k1Ctas < |confs|
    ensures s.mode == InitialSearch && !s.prev.ipcValid && |s.quota1| == n
    ensures Sum(s.quota2) == confs[k1Ctas]
  {
    QuotaSplitSum(confs[k1Ctas], n);
    SearchState(InitialSearch, PerfSample(0, 0, false), QuotaSplit(k1Ctas, n), QuotaSplit(confs[k1Ctas], n))
  }

  /**
   * Whether a scheduling call waits, opens a sampling window, or takes a sample. Nothing
   * happens within a window's length of the last mark or while either kernel runs more CTAs
   * than its quota; an inactive window opens only after the warm-up.
   */
  function Gate(now: nat, last: nat, active: bool, exceeded: bool): (g: GateAction)
    ensures g == TakeSample ==> active && !exceeded && now >= last + SampleWindow
    ensures g == OpenWindow ==> !active && !exceeded && now >= last + WarmUp
    ensures !exceeded && now >= last + WarmUp ==> g != Wait
  {
    if now < last + SampleWindow || exceeded then Wait
    else if !active then (if now >= last + WarmUp then OpenWindow else Wait)
    else TakeSample
  }

  // ---------------------------------------------------------------- properties of a step

  /** The very first comparison accepts the current sample and tries one step forward. */
  lemma FirstSampleTriesForward(s: SearchState, curr: PerfSample, improved: bool, confs: seq<nat>, n: nat)
    requires n > 0 && |s.quota1| == n && |confs| == ConfsSize
    requires !s.prev.ipcValid
    ensures match SampleStep(s, curr, improved, confs, n)
      case Continue(t) => t.mode == InitialSearch && t.prev == curr && t.quota1 == Shift(s.quota1, MaxCtas1Inc / 2)
      case Finish(a, b) => a == curr.numCtas1 && b == curr.numCtas2
      case TableOverrun(_) => false
  {
  }

  /** A failure after the search has committed to a direction reports the last accepted sample. */
  lemma CommittedFailureStops(s: SearchState, curr: PerfSample, confs: seq<nat>, n: nat)
    requires n > 0 && |s.quota1| == n && |confs| == ConfsSize
    requires s.prev.ipcValid && s.mode != InitialSearch
    ensures SampleStep(s, curr, false, confs, n) == Finish(s.prev.numCtas1, s.prev.numCtas2)
  {
  }

  /**
   * A failure of the first forward step reverses once: two steps back, committed backward,
   * keeping the earlier sample as the reference.
   */
  lemma FirstFailureReverses(s: SearchState, curr: PerfSample, confs: seq<nat>, n: nat)
    requires n > 0 && |s.quota1| == n && |confs| == ConfsSize
    requires s.prev.ipcValid && s.mode == InitialSearch
    ensures SampleStep(s, curr, false, confs, n).Continue? ==>
      var t := SampleStep(s, curr, false, confs, n).state;
      t.mode == BackwardSearch && t.prev == s.prev && t.quota1 == Shift(s.quota1, -MaxCtas1Inc)
  {
  }

  /**
   * A search that goes on leaves the first kernel's leading quota inside its range, a total
   * the table covers, and the second kernel's quota spread from the table entry for it.
   */
  lemma ContinueWithinBounds(s: SearchState, curr: PerfSample, improved: bool, confs: seq<nat>, n: nat)
    requires n > 0 && |s.quota1| == n && |confs| == ConfsSize
    ensures SampleStep(s, curr, improved, confs, n).Continue? ==>
      var t := SampleStep(s, curr, improved, confs, n).state;
      |t.quota1| == n && 1 <= t.quota1[0] <= MaxCtas1PerCore - 1 &&
      0 <= Total(t.quota1) < ConfsSize && Total(t.quota1) == Total(s.quota1) + n * (t.quota1[0] - s.quota1[0]) &&
      t.quota2 == QuotaSplit(confs[Total(t.quota1)], n) && Sum(t.quota2) == confs[Total(t.quota1)]
  {
    match Decide(s.mode, s.prev, curr, improved)
    case Stop(_, _) =>
    case Move(inc, _, _) =>
      var d := TruncDiv(inc, 2);
      TotalShift(s.quota1, d);
      assert n * d == |s.quota1| * d;
      var q1 := Shift(s.quota1, d);
      if 0 <= Total(q1) < ConfsSize {
        QuotaSplitSum(confs[Total(q1)], n);
      }
  }

  /** How far a committed search can still go in its direction. */
  function Room(s: SearchState): int
    requires |s.quota1| > 0
  {
    match s.mode
    case BackwardSearch => s.quota1[0]
    case _ => MaxCtas1PerCore - s.quota1[0]
  }

  /**
   * Once committed, the search keeps its direction and its room shrinks on every step while
   * staying positive, so a committed search ends after finitely many samples; the first
   * comparison that goes on commits to a direction.
   */
  lemma SearchProgresses(s: SearchState, curr: PerfSample, improved: bool, confs: seq<nat>, n: nat)
    requires n > 0 && |s.quota1| == n && |confs| == ConfsSize
    requires s.prev.ipcValid
    ensures SampleStep(s, curr, improved, confs, n).Continue? ==>
      var t := SampleStep(s, curr, improved, confs, n).state;
      t.mode != InitialSearch && |t.quota1| == n && Room(t) > 0 &&
      (s.mode != InitialSearch ==> t.mode == s.mode && Room(t) < Room(s))
  {
  }

  // ---------------------------------------------------------------- the table read

  /**
   * The step as written reads the capacity table before checking the range: from two cores
   * at 28 CTAs each, the first forward step asks for entry 64 of a 64-entry table. The
   * corrected step ends the search there instead.
   */
  lemma TableOverrunExample()
    ensures var s := SearchState(InitialSearch, PerfSample(0, 0, false), [28, 28], [8, 8]);
      var confs := seq(ConfsSize, _ => 0);
      SampleStepAsWritten(s, PerfSample(56, 16, true), true, confs, 2) == TableOverrun(64) &&
      SampleStep(s, PerfSample(56, 16, true), true, confs, 2) == Finish(56, 16)
  {
    var q1 := Shift([28, 28], TruncDiv(MaxCtas1Inc, 2));
    assert q1 == [32, 32];
    assert q1[1..] == [32] && q1[1..][1..] == [];
    assert Total([32]) == 32 + Total([]);
    assert Total(q1) == 32 + Total([32]);
  }

  /** Whenever the written step stays inside the table, the corrected step agrees with it. */
  lemma CorrectedAgreesInsideTable(s: SearchState, curr: PerfSample, improved: bool, confs: seq<nat>, n: nat)
    requires n > 0 && |s.quota1| == n && |confs| == ConfsSize
    ensures !SampleStepAsWritten(s, curr, improved, confs, n).TableOverrun? ==>
      SampleStep(s, curr, improved, confs, n) == SampleStepAsWritten(s, curr, improved, confs, n)
  {
  }
}
