/**
 One sample followed by one rebalance, seen from a Primary: how many idle cores
 it is left with, and how many cores it lends before and after.
 */
module Rounds {
  import opened Sets
  import opened Selection
  import opened Controller
  import opened Rebalance
  import opened Harvester

  function Round(s: State, active: set<int>, dt: seq<nat>, lowTic: int): State
    requires Shaped(s) && |s.ctrs| <= |dt|
  {
    Allocated(Evaluated(s, active, dt, lowTic))
  }

  /** Primary i's records at its harvest decision. */
  function CtrThen(s: State, active: set<int>, dt: seq<nat>, lowTic: int, i: nat): PrimaryCtr
    requires Shaped(s) && i < |s.ctrs| <= |dt|
  {
    EvaluatedCtr(s.ctrs[i], s.infos[i], active, dt[i], lowTic)
  }

  function InfoThen(s: State, active: set<int>, dt: seq<nat>, lowTic: int, i: nat): BalancerInfo
    requires Shaped(s) && i < |s.ctrs| <= |dt|
  {
    Tuned(s.ctrs[i], s.infos[i], active, dt[i], lowTic)
  }

  /** The eligible cores of Primary i that the new mask leaves to it. */
  function LeftToIdle(s: State, active: set<int>, dt: seq<nat>, lowTic: int, i: nat): set<int>
    requires Shaped(s) && i < |s.ctrs| <= |dt|
  {
    EligibleCores(s.ctrs[i].cpuList, s.lastMask, active) - Round(s, active, dt, lowTic).lastMask
  }

  lemma CountedAtDecision(s: State, active: set<int>, dt: seq<nat>, lowTic: int, i: nat)
    requires Inv(s, lowTic) && i < |s.ctrs| <= |dt|
    ensures var ci, bi := CtrThen(s, active, dt, lowTic, i), InfoThen(s, active, dt, lowTic, i);
            && CtrOk(ci, lowTic) && ci.cpuList == s.ctrs[i].cpuList
            && Counted(ci, bi, s.lastMask, active)
            && bi.coresAllocated == s.infos[i].coresAllocated && bi.spareCores == s.infos[i].spareCores
            && ci.minSecondaryCores == s.ctrs[i].minSecondaryCores
  {
    hide CtrsOk, RecordsOk, Canonical, AllCores;
    CtrAt(s.ctrs, lowTic, i);
    RecordAt(s.ctrs, s.infos, s.lastMask, lowTic, i);
    CountIdleIsSize(s.ctrs[i].cpuList, active);
    EvaluateKeepsCtr(s.ctrs[i], s.infos[i], active, dt[i], lowTic);
  }

  /** What the new mask takes from Primary i is what was picked from it. */
  lemma ShareOfRound(s: State, active: set<int>, dt: seq<nat>, lowTic: int, i: nat)
    requires Inv(s, lowTic) && i < |s.ctrs| <= |dt|
    ensures var cpus := s.ctrs[i].cpuList;
            var spare := HarvestedInfo(CtrThen(s, active, dt, lowTic, i), InfoThen(s, active, dt, lowTic, i)).spareCores;
            var u := Round(s, active, dt, lowTic);
            && Elems(cpus) * u.lastMask == Elems(Picks(cpus, spare, s.lastMask, active))
            && u.infos[i].coresAllocated == |Picks(cpus, spare, s.lastMask, active)|
            && LeftToIdle(s, active, dt, lowTic, i) == LeftIdle(cpus, spare, s.lastMask, active)
  {
    hide CtrsOk, RecordsOk, Canonical, AllCores, Eligible;
    var t := Evaluated(s, active, dt, lowTic);
    EvaluateKeeps(s, active, dt, lowTic);
    CountedAtDecision(s, active, dt, lowTic, i);
    EvalAt(s.ctrs, s.infos, active, dt, lowTic, i);
    AllocAt(t, |t.ctrs|, i);
    ListShare(t, |t.ctrs|, i, lowTic);
    var cpus := s.ctrs[i].cpuList;
    var mask := Round(s, active, dt, lowTic).lastMask;
    assert EligibleCores(cpus, s.lastMask, active) - mask == EligibleCores(cpus, s.lastMask, active) - Elems(cpus) * mask;
  }

  /**
   One rebalance restores the idle target of every Primary whose harvest was
   not skipped: the cores left idle to it number the target, or all there are,
   short by at most the number of its lent cores that were idle.
   */
  lemma RoundRestoresTarget(s: State, active: set<int>, dt: seq<nat>, lowTic: int, i: nat)
    requires Inv(s, lowTic) && i < |s.ctrs| <= |dt|
    requires !Stuck(CtrThen(s, active, dt, lowTic, i), s.lastMask, active)
    ensures var ci, idle := CtrThen(s, active, dt, lowTic, i), |IdleCores(s.ctrs[i].cpuList, active)|;
            var want := Min(ci.targetIdleCores, s.infos[i].coresAllocated + idle);
            var lentIdle := |Lent(ci.cpuList, s.lastMask) * IdleCores(ci.cpuList, active)|;
            && want - lentIdle <= |LeftToIdle(s, active, dt, lowTic, i)| <= want
            && (lentIdle == 0 ==>
                  && |LeftToIdle(s, active, dt, lowTic, i)| == want
                  && s.infos[i].coresAllocated + idle - ci.targetIdleCores <= ci.maxSecondaryCores)
  {
    CountedAtDecision(s, active, dt, lowTic, i);
    ShareOfRound(s, active, dt, lowTic, i);
    RestoresTarget(CtrThen(s, active, dt, lowTic, i), InfoThen(s, active, dt, lowTic, i), lowTic, s.lastMask, active);
  }

  /** When a round restores a Primary's idle target, for every round. */
  lemma RoundRestoresTargetExactly(s: State, active: set<int>, dt: seq<nat>, lowTic: int, i: nat)
    requires Inv(s, lowTic) && i < |s.ctrs| <= |dt|
    ensures var ci := CtrThen(s, active, dt, lowTic, i);
            var eligible := |EligibleCores(ci.cpuList, s.lastMask, active)|;
            var lentIdle := |Lent(ci.cpuList, s.lastMask) * IdleCores(ci.cpuList, active)|;
            && (|LeftToIdle(s, active, dt, lowTic, i)| == Min(ci.targetIdleCores, eligible) <==>
                if Stuck(ci, s.lastMask, active)
                then Min(Max(s.infos[i].spareCores, 0), eligible) == Max(eligible - ci.targetIdleCores, 0)
                else lentIdle == 0 || s.infos[i].coresAllocated + |IdleCores(ci.cpuList, active)| <= ci.targetIdleCores
                     || eligible == ci.totalEligibleCores || ci.targetIdleCores in {0, ci.totalEligibleCores})
            && (lentIdle == 0 && Stuck(ci, s.lastMask, active) ==> |IdleCores(ci.cpuList, active)| < ci.targetIdleCores)
  {
    hide Round, CtrThen, InfoThen, LeftToIdle;
    CountedAtDecision(s, active, dt, lowTic, i);
    ShareOfRound(s, active, dt, lowTic, i);
    hide Stuck, HarvestedInfo, LeftIdle, EligibleCores, Lent, IdleCores, Inv;
    RestoresTargetExactly(CtrThen(s, active, dt, lowTic, i), InfoThen(s, active, dt, lowTic, i), lowTic, s.lastMask, active);
  }

  /** What makes a Primary ask for a rebalance, by its record and by the machine. */
  lemma TriggersOffTarget(s: State, active: set<int>, dt: seq<nat>, lowTic: int, i: nat)
    requires Inv(s, lowTic) && i < |s.ctrs| <= |dt|
    ensures Triggers(s.ctrs[i], s.infos[i], active, dt[i], lowTic) <==> OffTarget(CtrThen(s, active, dt, lowTic, i), s.lastMask, active)
  {
    CountedAtDecision(s, active, dt, lowTic, i);
    hide Inv, CtrOk, EvaluatedCtr, Tuned, IdleCores, Lent;
  }

  /** Some Primary is off its target, and not stuck there. */
  ghost predicate AnyOffTarget(t: State, active: set<int>) {
    exists i :: 0 <= i < |t.ctrs| && OffTarget(t.ctrs[i], t.lastMask, active)
  }

  /** A sample leads to a rebalance if and only if some Primary is off its target and not stuck there. */
  lemma RebalanceIffOffTarget(s: State, active: set<int>, dt: seq<nat>, lowTic: int)
    requires Inv(s, lowTic) && |s.ctrs| <= |dt|
    ensures var t := Evaluated(s, active, dt, lowTic);
            t.triggered <==> AnyOffTarget(t, active)
  {
    var t := Evaluated(s, active, dt, lowTic);
    RebalanceIffWanted(s, active, dt, lowTic);
    hide Inv, Triggers, OffTarget;
    forall i | 0 <= i < |s.ctrs|
      ensures t.ctrs[i] == CtrThen(s, active, dt, lowTic, i)
      ensures Triggers(s.ctrs[i], s.infos[i], active, dt[i], lowTic) <==> OffTarget(t.ctrs[i], s.lastMask, active)
    {
      EvalAt(s.ctrs, s.infos, active, dt, lowTic, i);
      TriggersOffTarget(s, active, dt, lowTic, i);
    }
    hide Evaluated, CtrThen;
    if t.triggered {
      var i: nat :| i < |s.ctrs| && Triggers(s.ctrs[i], s.infos[i], active, dt[i], lowTic);
      assert OffTarget(t.ctrs[i], s.lastMask, active);
    }
  }

  /** What an iteration on a new sample leaves: with some Primary off its target a reallocation, otherwise just the evaluated records. */
  ghost predicate Iterated(s: State, active: set<int>, dt: seq<nat>, lowTic: int, u: State)
    requires Shaped(s) && |s.ctrs| <= |dt|
  {
    var t := Evaluated(s, active, dt, lowTic);
    u == if AnyOffTarget(t, active) then Allocated(t) else t.(evaluated := false)
  }

  /** An iteration on a new sample reallocates if and only if some Primary is off its target. */
  lemma IterationExactly(s: State, active: set<int>, dt: seq<nat>, lowTic: int)
    requires Inv(s, lowTic) && !s.evaluated && active != s.idleMask && |s.ctrs| <= |dt|
    ensures Iterated(s, active, dt, lowTic, Step(Step(s, Evaluate(active, dt), lowTic), Event.Allocate, lowTic))
  {
    hide Inv, OffTarget, Allocated;
    RebalanceIffOffTarget(s, active, dt, lowTic);
  }

  lemma ShortIsOffTarget(ci: PrimaryCtr, bi: BalancerInfo, last: set<int>, active: set<int>)
    requires Counted(ci, bi, last, active) && |IdleCores(ci.cpuList, active)| < ci.targetIdleCores
    requires bi.coresAllocated != ci.minSecondaryCores
    ensures OffTarget(ci, last, active) && !Stuck(ci, last, active)
  {}

  lemma ShortPrimaryTriggers(s: State, active: set<int>, dt: seq<nat>, lowTic: int, i: nat)
    requires Inv(s, lowTic) && !s.evaluated && active != s.idleMask && i < |s.ctrs| <= |dt|
    requires |IdleCores(s.ctrs[i].cpuList, active)| < CtrThen(s, active, dt, lowTic, i).targetIdleCores
    requires s.infos[i].coresAllocated != s.ctrs[i].minSecondaryCores
    ensures Step(Step(s, Evaluate(active, dt), lowTic), Event.Allocate, lowTic) == Round(s, active, dt, lowTic)
  {
    assert Shaped(s);
    hide Inv, OffTarget, Stuck, Counted, EvaluatedCtr, Tuned, IdleCores, Lent, CtrOk, Allocated;
    CountedAtDecision(s, active, dt, lowTic, i);
    EvalAt(s.ctrs, s.infos, active, dt, lowTic, i);
    ShortIsOffTarget(CtrThen(s, active, dt, lowTic, i), InfoThen(s, active, dt, lowTic, i), s.lastMask, active);
    IterationExactly(s, active, dt, lowTic);
    hide Step;
  }

  /**
   A Primary short of idle cores that lends more than its minimum gets a
   rebalance with the next new sample, and with it, if no lent core was idle,
   its target or all cores there are.
   */
  lemma ShortPrimaryIsServed(s: State, active: set<int>, dt: seq<nat>, lowTic: int, i: nat)
    requires Inv(s, lowTic) && !s.evaluated && active != s.idleMask && i < |s.ctrs| <= |dt|
    requires |IdleCores(s.ctrs[i].cpuList, active)| < CtrThen(s, active, dt, lowTic, i).targetIdleCores
    requires s.infos[i].coresAllocated != s.ctrs[i].minSecondaryCores
    ensures Step(Step(s, Evaluate(active, dt), lowTic), Event.Allocate, lowTic) == Round(s, active, dt, lowTic)
    ensures var ci, idle := CtrThen(s, active, dt, lowTic, i), IdleCores(s.ctrs[i].cpuList, active);
            |Lent(ci.cpuList, s.lastMask) * idle| == 0 ==>
            |LeftToIdle(s, active, dt, lowTic, i)| == Min(ci.targetIdleCores, s.infos[i].coresAllocated + |idle|)
  {
    ShortPrimaryTriggers(s, active, dt, lowTic, i);
    hide Step, Round, CtrThen, InfoThen, LeftToIdle, Inv, OffTarget, Stuck, Counted, EvaluatedCtr, Tuned, EligibleCores, IdleCores, Lent, CtrOk;
    CountedAtDecision(s, active, dt, lowTic, i);
    ShortIsOffTarget(CtrThen(s, active, dt, lowTic, i), InfoThen(s, active, dt, lowTic, i), s.lastMask, active);
    RoundRestoresTarget(s, active, dt, lowTic, i);
  }

  /** A Primary on target lends as many cores after another Primary's rebalance as before. */
  lemma RoundKeepsOnTarget(s: State, active: set<int>, dt: seq<nat>, lowTic: int, i: nat)
    requires Inv(s, lowTic) && i < |s.ctrs| <= |dt|
    requires |IdleCores(s.ctrs[i].cpuList, active)| == CtrThen(s, active, dt, lowTic, i).targetIdleCores
    requires s.infos[i].coresAllocated <= CtrThen(s, active, dt, lowTic, i).maxSecondaryCores
    ensures Round(s, active, dt, lowTic).infos[i].coresAllocated == s.infos[i].coresAllocated
  {
    CountedAtDecision(s, active, dt, lowTic, i);
    ShareOfRound(s, active, dt, lowTic, i);
    OnTargetUndisturbed(CtrThen(s, active, dt, lowTic, i), InfoThen(s, active, dt, lowTic, i), lowTic, s.lastMask, active);
  }

  /**
   A Primary short of idle cores can still lend more after a rebalance; exactly
   when its harvest is skipped at the minimum, an older and larger spare count
   is still in its record, and one of its unlent cores is idle.
   */
  lemma RoundTakesFromShortExactly(s: State, active: set<int>, dt: seq<nat>, lowTic: int, i: nat)
    requires Inv(s, lowTic) && i < |s.ctrs| <= |dt|
    requires |IdleCores(s.ctrs[i].cpuList, active)| < CtrThen(s, active, dt, lowTic, i).targetIdleCores
    ensures Round(s, active, dt, lowTic).infos[i].coresAllocated > s.infos[i].coresAllocated <==>
            && s.infos[i].coresAllocated == s.ctrs[i].minSecondaryCores
            && s.infos[i].spareCores > s.infos[i].coresAllocated
            && IdleCores(s.ctrs[i].cpuList, active) - s.lastMask != {}
  {
    CountedAtDecision(s, active, dt, lowTic, i);
    ShareOfRound(s, active, dt, lowTic, i);
    DeficitLendsMoreExactly(CtrThen(s, active, dt, lowTic, i), InfoThen(s, active, dt, lowTic, i), lowTic, s.lastMask, active);
  }

  /**
   A rebalance leaves more cores lent than the maximum exactly when the harvest
   was skipped with a spare count from before the maximum was lowered, and
   enough cores are eligible.
   */
  lemma RoundExceedsMaximumExactly(s: State, active: set<int>, dt: seq<nat>, lowTic: int, i: nat)
    requires Inv(s, lowTic) && i < |s.ctrs| <= |dt|
    ensures var ci := CtrThen(s, active, dt, lowTic, i);
            Round(s, active, dt, lowTic).infos[i].coresAllocated > ci.maxSecondaryCores <==>
            && Stuck(ci, s.lastMask, active) && s.infos[i].spareCores > ci.maxSecondaryCores
            && |EligibleCores(ci.cpuList, s.lastMask, active)| > ci.maxSecondaryCores
  {
    hide Round, CtrThen, InfoThen;
    CountedAtDecision(s, active, dt, lowTic, i);
    ShareOfRound(s, active, dt, lowTic, i);
    var ci, bi := CtrThen(s, active, dt, lowTic, i), InfoThen(s, active, dt, lowTic, i);
    PicksCount(ci.cpuList, HarvestedInfo(ci, bi).spareCores, s.lastMask, active);
  }
}
