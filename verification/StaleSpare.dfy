/**
 A run in which the early return of `doHarvest` (Balancer/main.c:61-67) leaves a
 spare count in place that no longer fits: a Primary with fewer idle cores than
 its target has one more core taken from it when another Primary triggers.
 */
module StaleSpare {
  import opened Sets
  import opened Selection
  import opened Controller
  import opened Harvester

  /** Six cores, of which two are to be idle and at least three are lent. */
  const SHORT := PrimaryCtr([0, 1, 2, 3, 4, 5], 0.1, 2, 3, 6, 4, 3)

  /** One core, which need not be idle. */
  const OTHER := PrimaryCtr([6], 1.0, 0, 0, 1, 1, 0)

  const SAMPLE1 := {0, 6}
  const SAMPLE2 := {0, 1, 2, 6}
  const SAMPLE3 := {0, 1, 3, 4, 5}

  const TRACE := [Register(SHORT), Register(OTHER),
                  Evaluate(SAMPLE1, [0, 0]), Allocate, Evaluate(SAMPLE2, [0, 0]), Allocate,
                  Evaluate(SAMPLE3, [0, 0]), Allocate]

  function Info(prev: int, idle: int, diff: int, alloc: int, spare: int): BalancerInfo {
    INITIAL_INFO.(prevIdleCoresCount := prev, idleCoresCount := idle, coreDifference := diff,
                 coresAllocated := alloc, spareCores := spare, currentState := Adjust, prevTargetIdleCores := 0)
  }

  function At(x: BalancerInfo, y: BalancerInfo, mask: set<int>, list: seq<int>, idle: set<int>, pending: bool): State {
    State([SHORT, OTHER], [x, y], mask, list, idle, pending, pending)
  }

  // The scans of concrete lists

  lemma CountUpTo(cpus: seq<int>, k: nat, active: set<int>)
    requires k < |cpus|
    ensures CountIdle(cpus[..k + 1], active) == CountIdle(cpus[..k], active) + if cpus[k] in active then 0 else 1
  {
    assert cpus[..k + 1][..k] == cpus[..k];
  }

  function Idle(c: int, active: set<int>): nat { if c in active then 0 else 1 }

  lemma IdleOfShort(active: set<int>)
    ensures CountIdle(SHORT.cpuList, active)
         == Idle(0, active) + Idle(1, active) + Idle(2, active) + Idle(3, active) + Idle(4, active) + Idle(5, active)
  {
    var l := SHORT.cpuList;
    CountUpTo(l, 0, active);
    CountUpTo(l, 1, active);
    CountUpTo(l, 2, active);
    CountUpTo(l, 3, active);
    CountUpTo(l, 4, active);
    CountUpTo(l, 5, active);
    assert l[..6] == l;
  }

  lemma IdleOfOther(active: set<int>)
    ensures CountIdle(OTHER.cpuList, active) == if 6 in active then 0 else 1
  {
    CountUpTo([6], 0, active);
    assert [6][..1] == [6];
  }

  lemma PickUpTo(cpus: seq<int>, k: nat, spare: int, last: set<int>, active: set<int>)
    requires k < |cpus|
    ensures Picks(cpus[..k + 1], spare, last, active)
         == if spare <= 0 then []
            else if Eligible(cpus[k], last, active) then [cpus[k]] + Picks(cpus[..k], spare - 1, last, active)
            else Picks(cpus[..k], spare, last, active)
  {
    assert cpus[..k + 1][..k] == cpus[..k];
  }

  lemma TopThree(spare: int, last: set<int>, active: set<int>)
    requires spare >= 3 && Eligible(3, last, active) && Eligible(4, last, active) && Eligible(5, last, active)
    ensures Picks(SHORT.cpuList, spare, last, active) == [5, 4, 3] + Picks(SHORT.cpuList[..3], spare - 3, last, active)
  {
    var l := SHORT.cpuList;
    PickUpTo(l, 5, spare, last, active);
    PickUpTo(l, 4, spare - 1, last, active);
    PickUpTo(l, 3, spare - 2, last, active);
    assert l[..6] == l;
    assert l[5] == 5 && l[4] == 4 && l[3] == 3;
    hide Picks, Eligible, SHORT;
    var low := Picks(l[..3], spare - 3, last, active);
    assert [5] + ([4] + ([3] + low)) == [5, 4, 3] + low;
  }

  lemma LowThree(last: set<int>, active: set<int>)
    requires !Eligible(0, last, active) && !Eligible(1, last, active)
    ensures Picks(SHORT.cpuList[..3], 1, last, active) == if Eligible(2, last, active) then [2] else []
  {
    var l := SHORT.cpuList;
    PickUpTo(l, 2, 1, last, active);
    PickUpTo(l, 1, 1, last, active);
    PickUpTo(l, 0, 1, last, active);
  }

  // The steps of the run

  /** With no time passing no window closes, so only the harvest decision is left. */
  lemma Untimed(ci: PrimaryCtr, bi: BalancerInfo, active: set<int>)
    requires bi.sampleTimeElapsed == 0
    ensures var idle := CountIdle(ci.cpuList, active);
            var b := bi.(prevIdleCoresCount := bi.idleCoresCount, idleCoresCount := idle,
                         coreDifference := idle - ci.targetIdleCores);
            && EvaluatedCtr(ci, bi, active, 0, 0) == ci
            && EvaluatedInfo(ci, bi, active, 0, 0) == HarvestedInfo(ci, b)
            && Triggers(ci, bi, active, 0, 0) == HarvestTriggers(ci, b)
  {}

  lemma EvalPair(s: State, active: set<int>, dt: seq<nat>)
    requires |s.ctrs| == |s.infos| == |dt| == 2
    ensures EvalCtrs(s.ctrs, s.infos, active, dt, 0)
         == [EvaluatedCtr(s.ctrs[0], s.infos[0], active, dt[0], 0), EvaluatedCtr(s.ctrs[1], s.infos[1], active, dt[1], 0)]
    ensures EvalInfos(s.ctrs, s.infos, active, dt, 0)
         == [EvaluatedInfo(s.ctrs[0], s.infos[0], active, dt[0], 0), EvaluatedInfo(s.ctrs[1], s.infos[1], active, dt[1], 0)]
  {
    EvalAt(s.ctrs, s.infos, active, dt, 0, 0);
    EvalAt(s.ctrs, s.infos, active, dt, 0, 1);
  }

  /** A sample of both Primaries, from what each evaluation comes to. */
  lemma PairStep(s: State, c: PrimaryCtr, u: BalancerInfo, d: PrimaryCtr, v: BalancerInfo, active: set<int>, m: nat, n: nat)
    requires s.ctrs == [c, d] && s.infos == [u, v] && !s.evaluated && active != s.idleMask
    ensures Step(s, Evaluate(active, [m, n]), 0)
         == State([EvaluatedCtr(c, u, active, m, 0), EvaluatedCtr(d, v, active, n, 0)],
                  [EvaluatedInfo(c, u, active, m, 0), EvaluatedInfo(d, v, active, n, 0)],
                  s.lastMask, s.published, active, true, Triggers(c, u, active, m, 0) || Triggers(d, v, active, n, 0))
  {
    var dt: seq<nat> := [m, n];
    EvalPair(s, active, dt);
    RebalanceIffWanted(s, active, dt, 0);
    hide EvaluatedCtr, EvaluatedInfo, Triggers, EvalCtrs, EvalInfos;
    if Triggers(c, u, active, m, 0) || Triggers(d, v, active, n, 0) {
      var i: nat := if Triggers(c, u, active, m, 0) then 0 else 1;
      assert i < |s.ctrs| && Triggers(s.ctrs[i], s.infos[i], active, dt[i], 0);
    }
  }

  lemma SampleStep(s: State, active: set<int>, x: BalancerInfo, y: BalancerInfo)
    requires s.ctrs == [SHORT, OTHER] && |s.infos| == 2 && !s.evaluated && active != s.idleMask
    requires s.infos[0].sampleTimeElapsed == 0 && s.infos[1].sampleTimeElapsed == 0
    requires x == EvaluatedInfo(SHORT, s.infos[0], active, 0, 0) && y == EvaluatedInfo(OTHER, s.infos[1], active, 0, 0)
    requires Triggers(SHORT, s.infos[0], active, 0, 0) || Triggers(OTHER, s.infos[1], active, 0, 0)
    ensures Step(s, Evaluate(active, [0, 0]), 0) == At(x, y, s.lastMask, s.published, active, true)
  {
    Untimed(SHORT, s.infos[0], active);
    Untimed(OTHER, s.infos[1], active);
    PairStep(s, SHORT, s.infos[0], OTHER, s.infos[1], active, 0, 0);
  }

  lemma AllocStep(s: State, p: seq<int>, q: seq<int>)
    requires |s.ctrs| == 2 && |s.infos| == 2 && s.evaluated && s.triggered
    requires p == PicksOf(s, 0) && q == PicksOf(s, 1) && p + q != []
    requires Elems(p + q) == s.lastMask ==> s.published == p + q
    ensures Step(s, Allocate, 0)
         == State(s.ctrs, [s.infos[0].(coresAllocated := |p|), s.infos[1].(coresAllocated := |q|)],
                  Elems(p + q), p + q, s.idleMask, false, false)
  {
    assert ListUpTo(s, 0) == [];
    assert ListUpTo(s, 1) == [] + p == p;
    assert ListUpTo(s, 2) == p + q;
    AllocAt(s, 2, 0);
    AllocAt(s, 2, 1);
    assert AllocInfos(s, 2) == [s.infos[0].(coresAllocated := |p|), s.infos[1].(coresAllocated := |q|)];
    assert Overwritten(p + q, p + q) == p + q;
  }

  /** Five cores idle, two wanted: the three highest are lent. */
  lemma FirstSample(s: State)
    requires s == At(INITIAL_INFO, INITIAL_INFO, {}, [], {}, false)
    ensures Step(s, Evaluate(SAMPLE1, [0, 0]), 0) == At(Info(0, 5, 3, 0, 3), Info(0, 0, 0, 0, 0), {}, [], SAMPLE1, true)
  {
    IdleOfShort(SAMPLE1);
    IdleOfOther(SAMPLE1);
    hide CountIdle, EvaluatedCtr, EvaluatedInfo, Triggers;
    assert 0 in SAMPLE1;
    Untimed(SHORT, s.infos[0], SAMPLE1);
    Untimed(OTHER, s.infos[1], SAMPLE1);
    SampleStep(s, SAMPLE1, Info(0, 5, 3, 0, 3), Info(0, 0, 0, 0, 0));
  }

  lemma FirstPicks(t: State)
    requires t == At(Info(0, 5, 3, 0, 3), Info(0, 0, 0, 0, 0), {}, [], SAMPLE1, true)
    ensures PicksOf(t, 0) == [5, 4, 3] && PicksOf(t, 1) == []
  {
    TopThree(3, {}, SAMPLE1);
  }

  lemma First(s: State)
    requires s == At(INITIAL_INFO, INITIAL_INFO, {}, [], {}, false)
    ensures Step(Step(s, Evaluate(SAMPLE1, [0, 0]), 0), Allocate, 0)
         == At(Info(0, 5, 3, 3, 3), Info(0, 0, 0, 0, 0), {3, 4, 5}, [5, 4, 3], SAMPLE1, false)
  {
    hide Step, PicksOf;
    var t := Step(s, Evaluate(SAMPLE1, [0, 0]), 0);
    FirstSample(s);
    FirstPicks(t);
    assert [5, 4, 3] + [] == [5, 4, 3];
    assert Elems([5, 4, 3]) == {3, 4, 5};
    AllocStep(t, [5, 4, 3], []);
  }

  /** The lent cores are the idle ones: a fourth is granted but none is there to take. */
  lemma SecondSample(s: State)
    requires s == At(Info(0, 5, 3, 3, 3), Info(0, 0, 0, 0, 0), {3, 4, 5}, [5, 4, 3], SAMPLE1, false)
    ensures Step(s, Evaluate(SAMPLE2, [0, 0]), 0) == At(Info(5, 3, 1, 3, 4), Info(0, 0, 0, 0, 0), {3, 4, 5}, [5, 4, 3], SAMPLE2, true)
  {
    IdleOfShort(SAMPLE2);
    IdleOfOther(SAMPLE2);
    hide CountIdle, EvaluatedCtr, EvaluatedInfo, Triggers;
    assert 1 in SAMPLE2 && 1 !in SAMPLE1;
    Untimed(SHORT, s.infos[0], SAMPLE2);
    Untimed(OTHER, s.infos[1], SAMPLE2);
    SampleStep(s, SAMPLE2, Info(5, 3, 1, 3, 4), Info(0, 0, 0, 0, 0));
  }

  lemma SecondPicks(t: State)
    requires t == At(Info(5, 3, 1, 3, 4), Info(0, 0, 0, 0, 0), {3, 4, 5}, [5, 4, 3], SAMPLE2, true)
    ensures PicksOf(t, 0) == [5, 4, 3] && PicksOf(t, 1) == []
  {
    TopThree(4, {3, 4, 5}, SAMPLE2);
    LowThree({3, 4, 5}, SAMPLE2);
  }

  lemma Second(s: State)
    requires s == At(Info(0, 5, 3, 3, 3), Info(0, 0, 0, 0, 0), {3, 4, 5}, [5, 4, 3], SAMPLE1, false)
    ensures Step(Step(s, Evaluate(SAMPLE2, [0, 0]), 0), Allocate, 0)
         == At(Info(5, 3, 1, 3, 4), Info(0, 0, 0, 0, 0), {3, 4, 5}, [5, 4, 3], SAMPLE2, false)
  {
    hide Step, PicksOf;
    var t := Step(s, Evaluate(SAMPLE2, [0, 0]), 0);
    SecondSample(s);
    SecondPicks(t);
    assert [5, 4, 3] + [] == [5, 4, 3];
    assert Elems([5, 4, 3]) == {3, 4, 5};
    AllocStep(t, [5, 4, 3], []);
  }

  /** One core idle where two are wanted, and yet a fourth core is lent. */
  lemma ThirdSample(s: State)
    requires s == At(Info(5, 3, 1, 3, 4), Info(0, 0, 0, 0, 0), {3, 4, 5}, [5, 4, 3], SAMPLE2, false)
    ensures Step(s, Evaluate(SAMPLE3, [0, 0]), 0) == At(Info(3, 1, -1, 3, 4), Info(0, 1, 1, 0, 1), {3, 4, 5}, [5, 4, 3], SAMPLE3, true)
  {
    IdleOfShort(SAMPLE3);
    IdleOfOther(SAMPLE3);
    hide CountIdle, EvaluatedCtr, EvaluatedInfo, Triggers;
    assert 3 in SAMPLE3 && 3 !in SAMPLE2;
    Untimed(SHORT, s.infos[0], SAMPLE3);
    Untimed(OTHER, s.infos[1], SAMPLE3);
    SampleStep(s, SAMPLE3, Info(3, 1, -1, 3, 4), Info(0, 1, 1, 0, 1));
  }

  lemma ThirdPicks(t: State)
    requires t == At(Info(3, 1, -1, 3, 4), Info(0, 1, 1, 0, 1), {3, 4, 5}, [5, 4, 3], SAMPLE3, true)
    ensures PicksOf(t, 0) == [5, 4, 3, 2] && PicksOf(t, 1) == [6]
  {
    TopThree(4, {3, 4, 5}, SAMPLE3);
    LowThree({3, 4, 5}, SAMPLE3);
    PickUpTo([6], 0, 1, {3, 4, 5}, SAMPLE3);
    assert [6][..1] == [6];
  }

  lemma Third(s: State)
    requires s == At(Info(5, 3, 1, 3, 4), Info(0, 0, 0, 0, 0), {3, 4, 5}, [5, 4, 3], SAMPLE2, false)
    ensures Step(Step(s, Evaluate(SAMPLE3, [0, 0]), 0), Allocate, 0)
         == At(Info(3, 1, -1, 4, 4), Info(0, 1, 1, 1, 1), {2, 3, 4, 5, 6}, [5, 4, 3, 2, 6], SAMPLE3, false)
  {
    hide Step, PicksOf;
    var t := Step(s, Evaluate(SAMPLE3, [0, 0]), 0);
    ThirdSample(s);
    ThirdPicks(t);
    assert [5, 4, 3, 2] + [6] == [5, 4, 3, 2, 6];
    assert Elems([5, 4, 3, 2, 6]) == {2, 3, 4, 5, 6};
    AllocStep(t, [5, 4, 3, 2], [6]);
  }

  lemma Extend(es: seq<Event>, n: nat)
    requires n < |es|
    ensures Run(es[..n + 1], 0) == Step(Run(es[..n], 0), es[n], 0)
    ensures Admissible(es[..n + 1], 0) <==>
            Admissible(es[..n], 0) && (es[n].Register? ==> RequestOk(Run(es[..n], 0), es[n].ctr, 0))
  {
    assert es[..n + 1][..n] == es[..n];
  }

  lemma RequestsOk(s: State)
    requires s.ctrs == [SHORT]
    ensures RequestOk(START, SHORT, 0) && RequestOk(s, OTHER, 0)
  {
    var l := SHORT.cpuList;
    assert forall i :: 0 <= i < |l| ==> l[i] == i;
    forall c | c in l ensures 0 <= c < 6 {
      var i :| 0 <= i < |l| && l[i] == c;
    }
    hide NoDup;
    assert NoDup(l) by { Ascending(l); }
    assert NoDup(OTHER.cpuList) by { Ascending(OTHER.cpuList); }
    assert s.ctrs[..0] == [] && AllCores([]) == {};
    assert AllCores(s.ctrs) == Elems(l);
    assert forall c | c in Elems(OTHER.cpuList) :: c == 6;
  }

  lemma Ascending(l: seq<int>)
    requires forall i :: 0 <= i < |l| ==> l[i] == l[0] + i
    ensures NoDup(l)
  {}

  lemma Registered()
    ensures Admissible(TRACE[..2], 0)
    ensures Run(TRACE[..2], 0) == At(INITIAL_INFO, INITIAL_INFO, {}, [], {}, false)
  {
    hide RequestOk;
    assert TRACE[..0] == [];
    assert Run(TRACE[..0], 0) == START && Admissible(TRACE[..0], 0);
    hide Run, Admissible;
    Extend(TRACE, 0);
    var s := Run(TRACE[..1], 0);
    assert s == State([SHORT], [INITIAL_INFO], {}, [], {}, false, false);
    RequestsOk(s);
    Extend(TRACE, 1);
  }

  /**
   A well-formed run in which a rebalance raises the number of cores taken from
   a Primary that is short of idle cores and lends its minimum.
   */
  lemma ShortPrimaryLosesACore()
    ensures Admissible(TRACE, 0)
    ensures var s, t := Run(TRACE[..6], 0), Run(TRACE, 0);
            && |s.ctrs| == |t.ctrs| == |s.infos| == |t.infos| == 2
            && s.ctrs[0] == t.ctrs[0] == SHORT && t.infos[0].idleCoresCount < SHORT.targetIdleCores
            && s.infos[0].coresAllocated == SHORT.minSecondaryCores == 3
            && t.infos[0].coresAllocated == 4 && 2 in t.lastMask - s.lastMask && 2 !in SAMPLE3
  {
    hide Step, Run, Admissible, RequestOk;
    TwoSamples();
    Extend(TRACE, 6);
    Extend(TRACE, 7);
    Third(Run(TRACE[..6], 0));
    assert TRACE[..8] == TRACE;
  }

  // The same with the maximum lowered in between

  const BUSY := {0, 1, 2, 3, 4, 5, 6}

  /** The target has been raised, and the maximum lowered with it. */
  const RAISED := SHORT.(targetIdleCores := 3, maxSecondaryCores := 3)

  const LOWERING := [Register(SHORT), Register(OTHER),
                     Evaluate(SAMPLE1, [0, 0]), Allocate, Evaluate(SAMPLE2, [0, 0]), Allocate,
                     Evaluate(BUSY, [0, 0]), Allocate, Evaluate(SAMPLE3, [1_000_000_000, 0]), Allocate]

  /** The first Primary's record after the window that raised its target. */
  function Raised(alloc: int): BalancerInfo {
    Info(0, 1, -2, alloc, 4).(deficits := 0.15 * 1_000_000_000.0, deficitRate := 0.15, prevTargetIdleCores := 2,
                              currentState := Harvest, windows := [Window(1_000_000_000.0, 1_000_000_000, 3)])
  }

  lemma Different()
    ensures BUSY != SAMPLE2 && BUSY != SAMPLE3 && Idle(6, BUSY) == 0 && Idle(6, SAMPLE3) == 1
  {
    assert 3 in BUSY && 3 !in SAMPLE2 && 2 in BUSY && 2 !in SAMPLE3;
  }

  lemma ShortBusy()
    ensures var bi := Info(5, 3, 1, 3, 4);
            && EvaluatedCtr(SHORT, bi, BUSY, 0, 0) == SHORT && EvaluatedInfo(SHORT, bi, BUSY, 0, 0) == Info(3, 0, -2, 3, 4)
            && !Triggers(SHORT, bi, BUSY, 0, 0)
  {
    IdleOfShort(BUSY);
    hide CountIdle, EvaluatedCtr, EvaluatedInfo, Triggers;
    Untimed(SHORT, Info(5, 3, 1, 3, 4), BUSY);
  }

  lemma OtherSampled(active: set<int>)
    ensures var bi, idle := Info(0, 0, 0, 0, 0), Idle(6, active);
            && EvaluatedCtr(OTHER, bi, active, 0, 0) == OTHER && EvaluatedInfo(OTHER, bi, active, 0, 0) == Info(0, idle, idle, 0, idle)
            && (Triggers(OTHER, bi, active, 0, 0) <==> idle == 1)
  {
    IdleOfOther(active);
    hide CountIdle, EvaluatedCtr, EvaluatedInfo, Triggers;
    Untimed(OTHER, Info(0, 0, 0, 0, 0), active);
  }

  /** No core is idle: the short Primary's harvest is skipped at its minimum, and nobody triggers. */
  lemma BusySample(s: State)
    requires s == At(Info(5, 3, 1, 3, 4), Info(0, 0, 0, 0, 0), {3, 4, 5}, [5, 4, 3], SAMPLE2, false)
    ensures Step(s, Evaluate(BUSY, [0, 0]), 0)
         == State([SHORT, OTHER], [Info(3, 0, -2, 3, 4), Info(0, 0, 0, 0, 0)], {3, 4, 5}, [5, 4, 3], BUSY, true, false)
  {
    hide Info, BUSY, SAMPLE2, SHORT, OTHER, Idle, EvaluatedCtr, EvaluatedInfo, Triggers, Step;
    Different();
    ShortBusy();
    OtherSampled(BUSY);
    PairStep(s, SHORT, Info(5, 3, 1, 3, 4), OTHER, Info(0, 0, 0, 0, 0), BUSY, 0, 0);
  }

  lemma Busy(s: State)
    requires s == At(Info(5, 3, 1, 3, 4), Info(0, 0, 0, 0, 0), {3, 4, 5}, [5, 4, 3], SAMPLE2, false)
    ensures Step(Step(s, Evaluate(BUSY, [0, 0]), 0), Allocate, 0)
         == At(Info(3, 0, -2, 3, 4), Info(0, 0, 0, 0, 0), {3, 4, 5}, [5, 4, 3], BUSY, false)
  {
    BusySample(s);
  }

  /** The window closes with a deficit: the target is raised, the harvest skipped again. */
  lemma WindowRaises(bi: BalancerInfo)
    requires bi == Info(3, 0, -2, 3, 4) && CountIdle(SHORT.cpuList, SAMPLE3) == 1
    ensures EvaluatedCtr(SHORT, bi, SAMPLE3, 1_000_000_000, 0) == RAISED
    ensures EvaluatedInfo(SHORT, bi, SAMPLE3, 1_000_000_000, 0) == Raised(3)
  {
    hide CountIdle;
    var t := Sampled(SHORT, bi, SAMPLE3, 1_000_000_000);
    assert t.lowIdleFreq == 1_000_000_000.0 && t.sampleTimeElapsed == 1_000_000_000;
    assert NewDeficits(t) == 0.15 * 1_000_000_000.0;
    assert NewRate(t) == 0.15;
    assert MoveOf(SHORT, t) == Raise;
  }

  lemma ShortIdlesOne()
    ensures CountIdle(SHORT.cpuList, SAMPLE3) == 1
  {
    IdleOfShort(SAMPLE3);
  }

  lemma RaisingSample(s: State)
    requires s == At(Info(3, 0, -2, 3, 4), Info(0, 0, 0, 0, 0), {3, 4, 5}, [5, 4, 3], BUSY, false)
    ensures Step(s, Evaluate(SAMPLE3, [1_000_000_000, 0]), 0)
         == State([RAISED, OTHER], [Raised(3), Info(0, 1, 1, 0, 1)], {3, 4, 5}, [5, 4, 3], SAMPLE3, true, true)
  {
    hide Info, Raised, BUSY, SAMPLE3, SHORT, RAISED, OTHER, Idle, CountIdle, EvaluatedCtr, EvaluatedInfo, Triggers, Step;
    Different();
    ShortIdlesOne();
    WindowRaises(Info(3, 0, -2, 3, 4));
    OtherSampled(SAMPLE3);
    PairStep(s, SHORT, Info(3, 0, -2, 3, 4), OTHER, Info(0, 0, 0, 0, 0), SAMPLE3, 1_000_000_000, 0);
  }

  lemma RaisedPicks(t: State)
    requires t == State([RAISED, OTHER], [Raised(3), Info(0, 1, 1, 0, 1)], {3, 4, 5}, [5, 4, 3], SAMPLE3, true, true)
    ensures PicksOf(t, 0) == [5, 4, 3, 2] && PicksOf(t, 1) == [6]
  {
    TopThree(4, {3, 4, 5}, SAMPLE3);
    LowThree({3, 4, 5}, SAMPLE3);
    PickUpTo([6], 0, 1, {3, 4, 5}, SAMPLE3);
    assert [6][..1] == [6];
  }

  lemma Raising(s: State)
    requires s == At(Info(3, 0, -2, 3, 4), Info(0, 0, 0, 0, 0), {3, 4, 5}, [5, 4, 3], BUSY, false)
    ensures Step(Step(s, Evaluate(SAMPLE3, [1_000_000_000, 0]), 0), Allocate, 0)
         == State([RAISED, OTHER], [Raised(4), Info(0, 1, 1, 1, 1)], {2, 3, 4, 5, 6}, [5, 4, 3, 2, 6], SAMPLE3, false, false)
  {
    hide Step, PicksOf;
    var t := Step(s, Evaluate(SAMPLE3, [1_000_000_000, 0]), 0);
    RaisingSample(s);
    RaisedPicks(t);
    assert [5, 4, 3, 2] + [6] == [5, 4, 3, 2, 6];
    assert Elems([5, 4, 3, 2, 6]) == {2, 3, 4, 5, 6};
    AllocStep(t, [5, 4, 3, 2], [6]);
  }

  lemma SameBeginning()
    ensures LOWERING[..6] == TRACE[..6] && LOWERING[..10] == LOWERING && |LOWERING| == 10
    ensures LOWERING[6] == Evaluate(BUSY, [0, 0]) && LOWERING[8] == Evaluate(SAMPLE3, [1_000_000_000, 0])
    ensures LOWERING[7] == LOWERING[9] == Allocate
  {}

  /** The first two samples, as the run before has them. */
  lemma TwoSamples()
    ensures Admissible(TRACE[..6], 0)
    ensures Run(TRACE[..6], 0) == At(Info(5, 3, 1, 3, 4), Info(0, 0, 0, 0, 0), {3, 4, 5}, [5, 4, 3], SAMPLE2, false)
  {
    hide Step, Run, Admissible, RequestOk;
    Registered();
    Extend(TRACE, 2);
    Extend(TRACE, 3);
    First(Run(TRACE[..2], 0));
    Extend(TRACE, 4);
    Extend(TRACE, 5);
    Second(Run(TRACE[..4], 0));
  }

  /** A well-formed run after which a Primary lends more cores than its maximum. */
  lemma LentAboveMaximum()
    ensures Admissible(LOWERING, 0)
    ensures var s := Run(LOWERING, 0);
            && |s.ctrs| == |s.infos| == 2 && !s.evaluated
            && s.infos[0].coresAllocated == 4 && s.ctrs[0].maxSecondaryCores == 3
  {
    SameBeginning();
    hide Step, Run, Admissible, LOWERING, TRACE;
    TwoSamples();
    Extend(LOWERING, 6);
    Extend(LOWERING, 7);
    Busy(Run(LOWERING[..6], 0));
    Extend(LOWERING, 8);
    Extend(LOWERING, 9);
    Raising(Run(LOWERING[..8], 0));
  }
}
