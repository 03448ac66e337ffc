/**
 What one rebalance does to one Primary: `doHarvest` (Balancer/main.c) sets the
 spare count from the difference between idle cores and target, and the scan of
 Balancer/balancer.c turns it into lent cores.
 */
module Rebalance {
  import opened Sets
  import opened Selection
  import opened Controller

  function IdleCores(cpus: seq<int>, active: set<int>): set<int> {
    Elems(cpus) - active
  }

  /** The cores of a Primary that the mask in force lends out. */
  function Lent(cpus: seq<int>, last: set<int>): set<int> {
    Elems(cpus) * last
  }

  /** The eligible cores that the scan leaves to the Primary. */
  function LeftIdle(cpus: seq<int>, spare: int, last: set<int>, active: set<int>): set<int> {
    EligibleCores(cpus, last, active) - Elems(Picks(cpus, spare, last, active))
  }

  lemma IdleSplit(cpus: seq<int>, active: set<int>)
    requires NoDup(cpus) && |cpus| > 0
    ensures var rest, c := IdleCores(cpus[..|cpus| - 1], active), cpus[|cpus| - 1];
            && c !in rest
            && IdleCores(cpus, active) == if c in active then rest else rest + {c}
  {
    var rest, c := cpus[..|cpus| - 1], cpus[|cpus| - 1];
    assert cpus == rest + [c];
    assert c !in rest;
  }

  lemma {:induction false} CountIdleIsSize(cpus: seq<int>, active: set<int>)
    requires NoDup(cpus)
    ensures CountIdle(cpus, active) == |IdleCores(cpus, active)|
  {
    if |cpus| == 0 {
      assert IdleCores(cpus, active) == {};
    } else {
      IdleSplit(cpus, active);
      CountIdleIsSize(cpus[..|cpus| - 1], active);
    }
  }

  /** Eligible cores are the lent ones and the idle ones, the lent-and-idle counted once. */
  lemma EligibleCount(cpus: seq<int>, last: set<int>, active: set<int>)
    requires NoDup(cpus)
    ensures EligibleCores(cpus, last, active) == Lent(cpus, last) + IdleCores(cpus, active)
    ensures |EligibleCores(cpus, last, active)|
         == |Lent(cpus, last)| + |IdleCores(cpus, active)| - |Lent(cpus, last) * IdleCores(cpus, active)|
    ensures |EligibleCores(cpus, last, active)| <= |cpus|
  {
    assert EligibleCores(cpus, last, active) == Lent(cpus, last) + IdleCores(cpus, active);
    SubsetSize(EligibleCores(cpus, last, active), Elems(cpus));
    NoDupSize(cpus);
  }

  lemma LeftCount(cpus: seq<int>, spare: int, last: set<int>, active: set<int>)
    requires NoDup(cpus)
    ensures var e := |EligibleCores(cpus, last, active)|;
            |LeftIdle(cpus, spare, last, active)| == e - Min(Max(spare, 0), e)
  {
    var p := Picks(cpus, spare, last, active);
    PicksWithin(cpus, spare, last, active);
    PicksCount(cpus, spare, last, active);
    PicksNoDup(cpus, spare, last, active);
    NoDupSize(p);
    SubsetSize(Elems(p), EligibleCores(cpus, last, active));
  }

  /** The record matches the machine: what was counted idle and what is lent. */
  ghost predicate Counted(ci: PrimaryCtr, bi: BalancerInfo, last: set<int>, active: set<int>) {
    && bi.idleCoresCount == |IdleCores(ci.cpuList, active)|
    && bi.coreDifference == bi.idleCoresCount - ci.targetIdleCores
    && bi.coresAllocated == |Lent(ci.cpuList, last)|
  }

  /** By the machine: a surplus with the maximum lent, or a deficit with the minimum lent. */
  predicate Stuck(ci: PrimaryCtr, last: set<int>, active: set<int>) {
    var idle, lent := |IdleCores(ci.cpuList, active)|, |Lent(ci.cpuList, last)|;
    (idle > ci.targetIdleCores && lent == ci.maxSecondaryCores) || (idle < ci.targetIdleCores && lent == ci.minSecondaryCores)
  }

  /** By the machine: a surplus or a deficit that something can be done about. */
  predicate OffTarget(ci: PrimaryCtr, last: set<int>, active: set<int>) {
    |IdleCores(ci.cpuList, active)| != ci.targetIdleCores && !Stuck(ci, last, active)
  }

  /**
   One rebalance restores the idle target. The eligible cores left to the
   Primary number the target, or all there are if fewer; cores that were lent
   but idle are counted twice by the controller, and each can cost one core.
   */
  lemma RestoresTarget(ci: PrimaryCtr, bi: BalancerInfo, lowTic: int, last: set<int>, active: set<int>)
    requires CtrOk(ci, lowTic) && Counted(ci, bi, last, active) && !Stuck(ci, last, active)
    ensures var spare := HarvestedInfo(ci, bi).spareCores;
            var want := Min(ci.targetIdleCores, bi.coresAllocated + bi.idleCoresCount);
            var lentIdle := |Lent(ci.cpuList, last) * IdleCores(ci.cpuList, active)|;
            && want - lentIdle <= |LeftIdle(ci.cpuList, spare, last, active)| <= want
            && (lentIdle == 0 ==>
                  && |LeftIdle(ci.cpuList, spare, last, active)| == want
                  && bi.coresAllocated + bi.coreDifference <= ci.maxSecondaryCores)
  {
    EligibleCount(ci.cpuList, last, active);
    LeftCount(ci.cpuList, HarvestedInfo(ci, bi).spareCores, last, active);
  }

  /**
   When the target is restored, for every sample: the eligible cores left number
   the target, or all there are. A skipped harvest restores it only if the spare
   count left over from an earlier sample happens to fit; otherwise it is restored
   unless a lent core was idle, so counted twice, and that made a difference.
   A harvest is never skipped for a surplus unless a lent core was idle.
   */
  lemma RestoresTargetExactly(ci: PrimaryCtr, bi: BalancerInfo, lowTic: int, last: set<int>, active: set<int>)
    requires CtrOk(ci, lowTic) && Counted(ci, bi, last, active)
    ensures var eligible := |EligibleCores(ci.cpuList, last, active)|;
            var lentIdle := |Lent(ci.cpuList, last) * IdleCores(ci.cpuList, active)|;
            && (|LeftIdle(ci.cpuList, HarvestedInfo(ci, bi).spareCores, last, active)| == Min(ci.targetIdleCores, eligible) <==>
                if Stuck(ci, last, active) then Min(Max(bi.spareCores, 0), eligible) == Max(eligible - ci.targetIdleCores, 0)
                else lentIdle == 0 || bi.coresAllocated + bi.idleCoresCount <= ci.targetIdleCores
                     || eligible == ci.totalEligibleCores || ci.targetIdleCores in {0, ci.totalEligibleCores})
            && (lentIdle == 0 ==> eligible == bi.coresAllocated + bi.idleCoresCount)
            && (lentIdle == 0 && Stuck(ci, last, active) ==> bi.idleCoresCount < ci.targetIdleCores)
  {
    EligibleCount(ci.cpuList, last, active);
    LeftCount(ci.cpuList, HarvestedInfo(ci, bi).spareCores, last, active);
    SubsetSize(Lent(ci.cpuList, last) * IdleCores(ci.cpuList, active), IdleCores(ci.cpuList, active));
    SubsetSize(Lent(ci.cpuList, last) * IdleCores(ci.cpuList, active), Lent(ci.cpuList, last));
    assert ci.totalEligibleCores == |ci.cpuList|;
    hide IdleCores, Lent, EligibleCores, LeftIdle, NoDup;
  }

  /** A Primary on target keeps its number of lent cores when another one triggers. */
  lemma OnTargetUndisturbed(ci: PrimaryCtr, bi: BalancerInfo, lowTic: int, last: set<int>, active: set<int>)
    requires CtrOk(ci, lowTic) && Counted(ci, bi, last, active)
    requires |IdleCores(ci.cpuList, active)| == ci.targetIdleCores && bi.coresAllocated <= ci.maxSecondaryCores
    ensures |Picks(ci.cpuList, HarvestedInfo(ci, bi).spareCores, last, active)| == bi.coresAllocated
  {
    EligibleCount(ci.cpuList, last, active);
    PicksCount(ci.cpuList, bi.coresAllocated, last, active);
    SubsetSize(Lent(ci.cpuList, last), EligibleCores(ci.cpuList, last, active));
  }

  /**
   A Primary short of idle cores does not always get cores back. It lends even
   more exactly when the harvest was skipped at the minimum while the spare
   count of an earlier sample, still in the record, is larger than what is lent.
   */
  lemma DeficitLendsMoreExactly(ci: PrimaryCtr, bi: BalancerInfo, lowTic: int, last: set<int>, active: set<int>)
    requires CtrOk(ci, lowTic) && Counted(ci, bi, last, active) && |IdleCores(ci.cpuList, active)| < ci.targetIdleCores
    ensures var now := |Picks(ci.cpuList, HarvestedInfo(ci, bi).spareCores, last, active)|;
            now > bi.coresAllocated <==>
            && bi.coresAllocated == ci.minSecondaryCores
            && bi.spareCores > bi.coresAllocated
            && IdleCores(ci.cpuList, active) - last != {}
  {
    var e := EligibleCores(ci.cpuList, last, active);
    EligibleCount(ci.cpuList, last, active);
    PicksCount(ci.cpuList, HarvestedInfo(ci, bi).spareCores, last, active);
    SubsetSize(Lent(ci.cpuList, last), e);
    assert e - Lent(ci.cpuList, last) == IdleCores(ci.cpuList, active) - last;
  }
}
