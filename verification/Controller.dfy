/**
 The per-Primary controller (Balancer/main.c): how one sample of the idle mask
 moves a Primary's idle-core target and the number of cores it can spare.
 Floating-point numbers are modelled as reals.
 */
module Controller {
  import opened Sets
  import opened Selection

  const SURPLUS_EVTS_THRESH := 10
  const ALPHA := 0.85
  const RAMPUP1 := 5
  const RAMPUP2 := 5
  const IDLEACTIVE_SAMPLE_RATE := 1_000_000_000
  const ACBF_START_HIGH := -2147483648.0
  const ACBF_START_LOW := 2147483647.0

  datatype BalancerState = Observe | Adjust | Harvest

  /** The shared record of a Primary container; `cpuList` has NUMCPUS entries. */
  datatype PrimaryCtr = PrimaryCtr(
    cpuList: seq<int>,
    lowIdleFreqThreshold: real,
    targetIdleCores: int,
    staticTargetIdleCores: int,
    totalEligibleCores: int,
    maxSecondaryCores: int,
    minSecondaryCores: int)

  /** What an adjust window did to the target. */
  datatype Move = Raise | Wait | DropWithinError | Drop

  /** One adjust window, as the dynamic event log keeps it, with the target that it led to. */
  datatype Window = Window(lowIdleFreq: real, elapsed: int, target: int)

  /** The Balancer's private record of a Primary container. */
  datatype BalancerInfo = BalancerInfo(
    prevIdleCoresCount: int,
    idleCoresCount: int,
    prevTargetIdleCores: int,
    coreDifference: int,
    lowIdleFreq: real,
    sampleTimeElapsed: int,
    deficits: real,
    deficitRate: real,
    acbfHigh: real,
    acbfLow: real,
    rampCtr: int,
    surplusEvts: int,
    withinErrorFlag: bool,
    currentState: BalancerState,
    coresAllocated: int,
    spareCores: int,
    windows: seq<Window>)

  const INITIAL_INFO := BalancerInfo(0, 0, 0, 0, 0.0, 0, 0.0, 0.0, ACBF_START_HIGH, ACBF_START_LOW,
                                    0, SURPLUS_EVTS_THRESH + 1, false, Observe, 0, 0, [])

  // Observe

  /** The averaging step of the ramp-up. */
  function Averaged(bi: BalancerInfo): BalancerInfo
    requires bi.sampleTimeElapsed > 0
  {
    var d := if bi.deficits == 0.0 then bi.lowIdleFreq else 0.5 * bi.deficits + 0.5 * bi.lowIdleFreq;
    var rate := d / bi.sampleTimeElapsed as real;
    bi.(deficits := d, deficitRate := rate,
        acbfHigh := if rate > bi.acbfHigh then rate else bi.acbfHigh,
        acbfLow := if rate < bi.acbfLow then rate else bi.acbfLow,
        rampCtr := bi.rampCtr + 1)
  }

  function Observed(bi: BalancerInfo): BalancerInfo
    requires bi.sampleTimeElapsed > 0
  {
    if bi.rampCtr < RAMPUP1 then bi.(rampCtr := bi.rampCtr + 1)
    else if bi.rampCtr < RAMPUP1 + RAMPUP2 then Averaged(bi)
    else bi.(rampCtr := 0, currentState := Adjust)
  }

  // Adjust

  function NewDeficits(bi: BalancerInfo): real {
    ALPHA * bi.deficits + (1.0 - ALPHA) * bi.lowIdleFreq
  }

  function NewRate(bi: BalancerInfo): real
    requires bi.sampleTimeElapsed > 0
  {
    NewDeficits(bi) / bi.sampleTimeElapsed as real
  }

  /** The flag is sticky: once within the error band, so until the target drops. */
  function MoveOf(ci: PrimaryCtr, bi: BalancerInfo): Move
    requires bi.sampleTimeElapsed > 0
  {
    var rate := NewRate(bi);
    if rate > ci.lowIdleFreqThreshold then Raise
    else if !bi.withinErrorFlag && rate <= 0.66 * ci.lowIdleFreqThreshold then Drop
    else if bi.surplusEvts < SURPLUS_EVTS_THRESH then Wait
    else DropWithinError
  }

  function MovedTarget(ci: PrimaryCtr, m: Move, lowTic: int): int {
    match m
    case Raise => Min(ci.targetIdleCores + 1, ci.staticTargetIdleCores)
    case Wait => ci.targetIdleCores
    case _ => Max(ci.targetIdleCores - 1, lowTic)
  }

  function AdjustedCtr(ci: PrimaryCtr, bi: BalancerInfo, lowTic: int): PrimaryCtr
    requires bi.sampleTimeElapsed > 0
  {
    var t := MovedTarget(ci, MoveOf(ci, bi), lowTic);
    ci.(targetIdleCores := t, maxSecondaryCores := ci.totalEligibleCores - t)
  }

  function AdjustedInfo(ci: PrimaryCtr, bi: BalancerInfo, lowTic: int): BalancerInfo
    requires bi.sampleTimeElapsed > 0
  {
    var m := MoveOf(ci, bi);
    bi.(deficits := NewDeficits(bi), deficitRate := NewRate(bi),
        prevTargetIdleCores := if m.Wait? then bi.prevTargetIdleCores else ci.targetIdleCores,
        surplusEvts := if m.Raise? then bi.surplusEvts else if m.Wait? then bi.surplusEvts + 1 else 0,
        withinErrorFlag := if m.Raise? then bi.withinErrorFlag else m.Wait?,
        coreDifference := bi.idleCoresCount - MovedTarget(ci, m, lowTic),
        currentState := Harvest,
        windows := bi.windows + [Window(bi.lowIdleFreq, bi.sampleTimeElapsed, MovedTarget(ci, m, lowTic))])
  }

  // Harvest

  /** Surplus with everything lent already, or deficit with the minimum lent already. */
  predicate HarvestSkips(ci: PrimaryCtr, bi: BalancerInfo) {
    || (bi.coreDifference > 0 && bi.coresAllocated == ci.maxSecondaryCores)
    || (bi.coreDifference < 0 && bi.coresAllocated == ci.minSecondaryCores)
  }

  function HarvestedInfo(ci: PrimaryCtr, bi: BalancerInfo): BalancerInfo {
    if HarvestSkips(ci, bi) then bi
    else bi.(spareCores := Clamp(bi.coresAllocated + bi.coreDifference, 0, ci.maxSecondaryCores),
             currentState := Adjust)
  }

  predicate HarvestTriggers(ci: PrimaryCtr, bi: BalancerInfo) {
    !HarvestSkips(ci, bi) && bi.coreDifference != 0
  }

  // One evaluation

  function CountIdle(cpus: seq<int>, active: set<int>): nat {
    if |cpus| == 0 then 0
    else CountIdle(cpus[..|cpus| - 1], active) + if cpus[|cpus| - 1] in active then 0 else 1
  }

  function Sampled(ci: PrimaryCtr, bi: BalancerInfo, active: set<int>, dt: nat): BalancerInfo {
    var idle := CountIdle(ci.cpuList, active);
    bi.(prevIdleCoresCount := bi.idleCoresCount,
        idleCoresCount := idle,
        coreDifference := idle - ci.targetIdleCores,
        sampleTimeElapsed := bi.sampleTimeElapsed + dt,
        lowIdleFreq := if bi.idleCoresCount == 0 || bi.prevTargetIdleCores == 1
                       then bi.lowIdleFreq + dt as real else bi.lowIdleFreq)
  }

  predicate WindowCloses(bi: BalancerInfo) {
    bi.sampleTimeElapsed >= IDLEACTIVE_SAMPLE_RATE
  }

  function Watched(bi: BalancerInfo): BalancerInfo
    requires bi.sampleTimeElapsed > 0
  {
    if bi.currentState.Observe? then Observed(bi) else bi
  }

  /** The record between the sample and the harvest decision. */
  function Tuned(ci: PrimaryCtr, bi: BalancerInfo, active: set<int>, dt: nat, lowTic: int): BalancerInfo {
    var s := Sampled(ci, bi, active, dt);
    if WindowCloses(s) then AdjustedInfo(ci, Watched(s), lowTic).(lowIdleFreq := 0.0, sampleTimeElapsed := 0)
    else s
  }

  function EvaluatedCtr(ci: PrimaryCtr, bi: BalancerInfo, active: set<int>, dt: nat, lowTic: int): PrimaryCtr {
    var s := Sampled(ci, bi, active, dt);
    if WindowCloses(s) then AdjustedCtr(ci, Watched(s), lowTic) else ci
  }

  function EvaluatedInfo(ci: PrimaryCtr, bi: BalancerInfo, active: set<int>, dt: nat, lowTic: int): BalancerInfo {
    HarvestedInfo(EvaluatedCtr(ci, bi, active, dt, lowTic), Tuned(ci, bi, active, dt, lowTic))
  }

  predicate Triggers(ci: PrimaryCtr, bi: BalancerInfo, active: set<int>, dt: nat, lowTic: int) {
    HarvestTriggers(EvaluatedCtr(ci, bi, active, dt, lowTic), Tuned(ci, bi, active, dt, lowTic))
  }

  /** The difference a Primary adds to the Balancer's sum: none if its harvest is skipped. */
  function Contribution(ci: PrimaryCtr, bi: BalancerInfo): int {
    if HarvestSkips(ci, bi) then 0 else bi.coreDifference
  }

  function Difference(ci: PrimaryCtr, bi: BalancerInfo, active: set<int>, dt: nat, lowTic: int): int {
    Contribution(EvaluatedCtr(ci, bi, active, dt, lowTic), Tuned(ci, bi, active, dt, lowTic))
  }

  // What every evaluation keeps

  /** A Primary's registration, and what the controller keeps of it. */
  ghost predicate CtrOk(ci: PrimaryCtr, lowTic: int) {
    && NoDup(ci.cpuList)
    && (forall c | c in ci.cpuList :: 0 <= c < 64)
    && ci.totalEligibleCores == |ci.cpuList|
    && 0 <= lowTic <= ci.targetIdleCores <= ci.staticTargetIdleCores <= ci.totalEligibleCores
    && ci.maxSecondaryCores + ci.targetIdleCores == ci.totalEligibleCores
  }

  ghost predicate SpareOk(ci: PrimaryCtr, bi: BalancerInfo, lowTic: int) {
    0 <= bi.spareCores <= ci.totalEligibleCores - lowTic
  }

  function Pow(b: real, n: nat): real {
    if n == 0 then 1.0 else b * Pow(b, n - 1)
  }

  /** The weighted sum of the windows, the weight falling by ALPHA per window of age. */
  function GeometricSum(ws: seq<Window>, age: nat): real {
    if |ws| == 0 then 0.0
    else GeometricSum(ws[..|ws| - 1], age + 1) + (1.0 - ALPHA) * Pow(ALPHA, age) * ws[|ws| - 1].lowIdleFreq
  }

  ghost predicate WindowsWithin(ws: seq<Window>, bound: real) {
    forall w | w in ws :: 0.0 <= w.lowIdleFreq <= bound
  }

  /** The window in progress, and a ramp-up that never gets past its first step. */
  ghost predicate ClockOk(bi: BalancerInfo) {
    && 0 <= bi.sampleTimeElapsed
    && 0.0 <= bi.lowIdleFreq <= bi.sampleTimeElapsed as real
    && 0 <= bi.rampCtr <= 1 && (bi.currentState.Observe? ==> bi.rampCtr == 0)
    && bi.acbfHigh == ACBF_START_HIGH && bi.acbfLow == ACBF_START_LOW
  }

  /** The windows closed so far account for the average. */
  ghost predicate HistoryOk(bi: BalancerInfo) {
    bi.deficits == GeometricSum(bi.windows, 0)
  }

  /** What holds of a Primary's private record at every loop head. */
  ghost predicate InfoOk(bi: BalancerInfo) {
    ClockOk(bi) && !WindowCloses(bi) && HistoryOk(bi)
  }

  lemma {:induction false} OlderSum(ws: seq<Window>, age: nat)
    ensures GeometricSum(ws, age + 1) == ALPHA * GeometricSum(ws, age)
  {
    if |ws| > 0 {
      OlderSum(ws[..|ws| - 1], age + 1);
    }
  }

  lemma PushWindow(ws: seq<Window>, w: Window)
    ensures GeometricSum(ws + [w], 0) == ALPHA * GeometricSum(ws, 0) + (1.0 - ALPHA) * w.lowIdleFreq
  {
    OlderSum(ws, 0);
    assert (ws + [w])[..|ws|] == ws;
    assert Pow(ALPHA, 0) == 1.0;
  }

  /** No window, however old, weighs so much that the average leaves their range. */
  lemma {:induction false} DeficitsBounded(ws: seq<Window>, bound: real)
    requires WindowsWithin(ws, bound) && bound >= 0.0
    ensures 0.0 <= GeometricSum(ws, 0) <= bound
  {
    if |ws| > 0 {
      var older, w := ws[..|ws| - 1], ws[|ws| - 1];
      assert ws == older + [w];
      DeficitsBounded(older, bound);
      PushWindow(older, w);
    }
  }

  /** The averaging branch of the ramp-up is never entered. */
  lemma ObserveOnlyCounts(bi: BalancerInfo)
    requires bi.sampleTimeElapsed > 0 && bi.rampCtr <= 1
    ensures Observed(bi) == bi.(rampCtr := bi.rampCtr + 1)
  {}

  lemma AdjustKeeps(ci: PrimaryCtr, bi: BalancerInfo, lowTic: int)
    requires bi.sampleTimeElapsed > 0 && CtrOk(ci, lowTic)
    ensures CtrOk(AdjustedCtr(ci, bi, lowTic), lowTic)
  {}

  lemma AdjustKeepsHistory(ci: PrimaryCtr, bi: BalancerInfo, lowTic: int)
    requires bi.sampleTimeElapsed > 0 && HistoryOk(bi)
    ensures HistoryOk(AdjustedInfo(ci, bi, lowTic))
  {
    PushWindow(bi.windows, Window(bi.lowIdleFreq, bi.sampleTimeElapsed, AdjustedCtr(ci, bi, lowTic).targetIdleCores));
  }

  lemma SampleKeeps(ci: PrimaryCtr, bi: BalancerInfo, active: set<int>, dt: nat)
    requires ClockOk(bi) && HistoryOk(bi)
    ensures ClockOk(Sampled(ci, bi, active, dt)) && HistoryOk(Sampled(ci, bi, active, dt))
  {}

  lemma WatchKeeps(bi: BalancerInfo)
    requires bi.sampleTimeElapsed > 0 && ClockOk(bi)
    ensures Watched(bi) == bi || (bi.currentState.Observe? && Watched(bi) == bi.(rampCtr := 1))
  {
    if bi.currentState.Observe? {
      ObserveOnlyCounts(bi);
    }
  }

  lemma EvaluateKeepsInfo(ci: PrimaryCtr, bi: BalancerInfo, active: set<int>, dt: nat, lowTic: int)
    requires InfoOk(bi)
    ensures InfoOk(EvaluatedInfo(ci, bi, active, dt, lowTic))
  {
    var s := Sampled(ci, bi, active, dt);
    SampleKeeps(ci, bi, active, dt);
    var t := Tuned(ci, bi, active, dt, lowTic);
    if WindowCloses(s) {
      WatchKeeps(s);
      AdjustKeepsHistory(ci, Watched(s), lowTic);
    }
    HarvestKeepsInfo(EvaluatedCtr(ci, bi, active, dt, lowTic), t);
  }

  lemma HarvestKeepsInfo(ci: PrimaryCtr, bi: BalancerInfo)
    requires InfoOk(bi)
    ensures InfoOk(HarvestedInfo(ci, bi))
  {}

  lemma EvaluateKeepsCtr(ci: PrimaryCtr, bi: BalancerInfo, active: set<int>, dt: nat, lowTic: int)
    requires CtrOk(ci, lowTic) && SpareOk(ci, bi, lowTic)
    ensures var ci', bi' := EvaluatedCtr(ci, bi, active, dt, lowTic), EvaluatedInfo(ci, bi, active, dt, lowTic);
            && CtrOk(ci', lowTic) && SpareOk(ci', bi', lowTic)
            && ci'.cpuList == ci.cpuList
            && bi'.coresAllocated == bi.coresAllocated
  {
    var s := Sampled(ci, bi, active, dt);
    if WindowCloses(s) {
      AdjustKeeps(ci, Watched(s), lowTic);
    }
  }
}
