/**
 The Balancer process (Balancer/main.c, Balancer/balancer.c): its globals, its
 half of the shared block, and the functions that update them in place. Each
 method is shown to compute what the transition system of `Harvester` computes.
 */
module Balancer {
  import opened Sets
  import opened Selection
  import opened Controller
  import opened Harvester
  import opened MaskLog
  import opened Requests
  import opened Rounds
  import opened BalancerSteps

  class Process {
    const lowTic: int

    // Shared with the Monitor and the Listener: the published Primary slots and the affinity list
    var primaryCtrs: seq<PrimaryCtr>
    const affinityList: array<int>
    var numAffinity: nat

    // Private to the Balancer
    var info: seq<BalancerInfo>
    var setAffinityMask: set<int>
    var lastAffinityMask: set<int>
    var currIdleMask: set<int>
    var lastIdleMask: set<int>
    var affinityListPos: nat
    var currSecondaryCoreCount: int
    var lastSecondaryCoreCount: int
    var rebalanceAction: int
    var coreDifference: int
    var idleCoresCount: int

    /** The log of idle-mask changes. */
    var idleMaskChanges: seq<MaskChange>

    /** The state of the transition system, and every request made so far. */
    ghost var state: State
    ghost var requests: seq<Request>

    /** The tables have their sizes, and the registered Primaries' records are the ones of `state`. */
    ghost predicate Mirrors()
      reads this
    {
      && |primaryCtrs| <= |info| == SLOTS && Shaped(state)
      && primaryCtrs == state.ctrs && info[..|primaryCtrs|] == state.infos
      && lastAffinityMask == state.lastMask
    }

    ghost predicate Published()
      reads this, affinityList
    {
      && affinityList.Length == SLOTS && numAffinity <= SLOTS
      && affinityList[..numAffinity] == state.published
    }

    /** What holds throughout, also between an evaluation and the rebalance after it. */
    ghost predicate Consistent()
      reads this, affinityList
    {
      && Mirrors() && Published() && Inv(state, lowTic)
      && setAffinityMask == lastAffinityMask && currIdleMask == lastIdleMask == state.idleMask
      && currSecondaryCoreCount == |state.published|
      && Chained(idleMaskChanges, lastIdleMask)
    }

    /** What holds at the head of the polling loop. */
    ghost predicate Valid()
      reads this, affinityList
    {
      Consistent() && !state.evaluated && coreDifference == 0 && idleCoresCount == 0
    }

    /** The slots that no Primary has taken yet are as they were initialized. */
    ghost predicate Untouched()
      reads this
    {
      forall i :: |primaryCtrs| <= i < |info| ==> info[i] == INITIAL_INFO
    }

    constructor (lowTic: int)
      ensures Valid() && Untouched() && state == START && this.lowTic == lowTic && requests == []
      ensures fresh(affinityList)
    {
      this.lowTic := lowTic;
      primaryCtrs := [];
      info := seq(SLOTS, _ => INITIAL_INFO);
      affinityList := new int[SLOTS](_ => 0);
      numAffinity, affinityListPos := 0, 0;
      setAffinityMask, lastAffinityMask, currIdleMask, lastIdleMask := {}, {}, {}, {};
      currSecondaryCoreCount, lastSecondaryCoreCount, rebalanceAction := 0, 0, 0;
      coreDifference, idleCoresCount := 0, 0;
      idleMaskChanges, requests := [], [];
      state := START;
    }

    // The controller

    /** The flag in the record is set on the way, so the record is handed back. */
    static method WithinError(ci: PrimaryCtr, bi: BalancerInfo) returns (within: bool, after: BalancerInfo)
      ensures within == (bi.withinErrorFlag || bi.deficitRate > 0.66 * ci.lowIdleFreqThreshold)
      ensures after == bi.(withinErrorFlag := within)
    {
      if bi.withinErrorFlag {
        return true, bi;
      }
      after := bi.(withinErrorFlag := bi.deficitRate > 0.66 * ci.lowIdleFreqThreshold);
      return after.withinErrorFlag, after;
    }

    method DoObserve(i: nat)
      requires i < |info| && info[i].sampleTimeElapsed > 0
      modifies `info
      ensures info == old(info)[i := Observed(old(info[i]))]
    {
      var bi := info[i];
      if bi.rampCtr < RAMPUP1 {
        info := info[i := bi.(rampCtr := bi.rampCtr + 1)];
        return;
      }
      if bi.rampCtr < RAMPUP1 + RAMPUP2 {
        if bi.deficits == 0.0 {
          bi := bi.(deficits := bi.lowIdleFreq);
        } else {
          bi := bi.(deficits := 0.5 * bi.deficits + 0.5 * bi.lowIdleFreq);
        }
        bi := bi.(deficitRate := bi.deficits / bi.sampleTimeElapsed as real);
        bi := bi.(acbfHigh := if bi.deficitRate > bi.acbfHigh then bi.deficitRate else bi.acbfHigh);
        bi := bi.(acbfLow := if bi.deficitRate < bi.acbfLow then bi.deficitRate else bi.acbfLow);
        bi := bi.(rampCtr := bi.rampCtr + 1);
      } else {
        bi := bi.(rampCtr := 0, currentState := Adjust);
      }
      info := info[i := bi];
    }

    method DoAdjust(i: nat)
      requires i < |primaryCtrs| <= |info| && info[i].sampleTimeElapsed > 0
      modifies `primaryCtrs, `info
      ensures primaryCtrs == old(primaryCtrs)[i := AdjustedCtr(old(primaryCtrs[i]), old(info[i]), lowTic)]
      ensures info == old(info)[i := AdjustedInfo(old(primaryCtrs[i]), old(info[i]), lowTic)]
    {
      var ci, bi := primaryCtrs[i], info[i];
      bi := bi.(deficits := ALPHA * bi.deficits + (1.0 - ALPHA) * bi.lowIdleFreq);
      bi := bi.(deficitRate := bi.deficits / bi.sampleTimeElapsed as real);
      if bi.deficitRate > ci.lowIdleFreqThreshold {
        bi := bi.(prevTargetIdleCores := ci.targetIdleCores);
        ci := ci.(targetIdleCores := ci.targetIdleCores + 1);
        if ci.targetIdleCores > ci.staticTargetIdleCores {
          ci := ci.(targetIdleCores := ci.staticTargetIdleCores);
        }
      } else {
        var within;
        within, bi := WithinError(ci, bi);
        if within && bi.surplusEvts < SURPLUS_EVTS_THRESH {
          bi := bi.(surplusEvts := bi.surplusEvts + 1);
        } else {
          bi := bi.(prevTargetIdleCores := ci.targetIdleCores);
          ci := ci.(targetIdleCores := ci.targetIdleCores - 1);
          if ci.targetIdleCores < lowTic {
            ci := ci.(targetIdleCores := lowTic);
          }
          bi := bi.(surplusEvts := 0, withinErrorFlag := false);
        }
      }
      bi := bi.(windows := bi.windows + [Window(bi.lowIdleFreq, bi.sampleTimeElapsed, ci.targetIdleCores)]);
      bi := bi.(coreDifference := bi.idleCoresCount - ci.targetIdleCores);
      ci := ci.(maxSecondaryCores := ci.totalEligibleCores - ci.targetIdleCores);
      bi := bi.(currentState := Harvest);
      primaryCtrs, info := primaryCtrs[i := ci], info[i := bi];
    }

    method DoHarvest(i: nat) returns (wants: int)
      requires i < |primaryCtrs| <= |info|
      modifies `info, `coreDifference, `idleCoresCount
      ensures info == old(info)[i := HarvestedInfo(primaryCtrs[i], old(info[i]))]
      ensures var ci, bi := primaryCtrs[i], old(info[i]);
              && (wants == 0 || wants == 1)
              && (wants == 1 <==> || (bi.coreDifference > 0 && bi.coresAllocated != ci.maxSecondaryCores)
                                  || (bi.coreDifference < 0 && bi.coresAllocated != ci.minSecondaryCores))
      ensures wants == if Contribution(primaryCtrs[i], old(info[i])) != 0 then 1 else 0
      ensures coreDifference == old(coreDifference) + Contribution(primaryCtrs[i], old(info[i]))
    {
      var ci, bi := primaryCtrs[i], info[i];
      if bi.coreDifference > 0 && bi.coresAllocated == ci.maxSecondaryCores {
        return 0;
      }
      if bi.coreDifference < 0 && bi.coresAllocated == ci.minSecondaryCores {
        return 0;
      }
      bi := bi.(spareCores := bi.coresAllocated + bi.coreDifference);
      if bi.spareCores <= 0 {
        bi := bi.(spareCores := 0);
      }
      if bi.spareCores > ci.maxSecondaryCores {
        bi := bi.(spareCores := ci.maxSecondaryCores);
      }
      coreDifference := coreDifference + bi.coreDifference;
      idleCoresCount := idleCoresCount + bi.idleCoresCount;
      bi := bi.(currentState := Adjust);
      info := info[i := bi];
      if bi.coreDifference != 0 {
        return 1;
      }
      return 0;
    }

    static method CountIdleCores(cpus: seq<int>, active: set<int>) returns (idle: nat)
      ensures idle == CountIdle(cpus, active)
    {
      idle := 0;
      for k := 0 to |cpus|
        invariant idle == CountIdle(cpus[..k], active)
      {
        assert cpus[..k + 1][..k] == cpus[..k];
        if cpus[k] !in active {
          idle := idle + 1;
        }
      }
      assert cpus[..|cpus|] == cpus;
    }

    /** The first part of an evaluation: count, compare, and time the sample. */
    method Sample(i: nat, dt: nat)
      requires i < |primaryCtrs| <= |info|
      modifies `info
      ensures info == old(info)[i := Sampled(primaryCtrs[i], old(info[i]), currIdleMask, dt)]
    {
      var ci, bi := primaryCtrs[i], info[i];
      var idle := CountIdleCores(ci.cpuList, currIdleMask);
      bi := bi.(prevIdleCoresCount := bi.idleCoresCount, idleCoresCount := idle);
      bi := bi.(coreDifference := bi.idleCoresCount - ci.targetIdleCores);
      bi := bi.(sampleTimeElapsed := bi.sampleTimeElapsed + dt);
      if bi.prevIdleCoresCount == 0 || bi.prevTargetIdleCores == 1 {
        bi := bi.(lowIdleFreq := bi.lowIdleFreq + dt as real);
      }
      info := info[i := bi];
    }

    /** The second part, once a window is complete. */
    method CloseWindow(i: nat)
      requires i < |primaryCtrs| <= |info| && info[i].sampleTimeElapsed > 0
      modifies `primaryCtrs, `info
      ensures primaryCtrs == old(primaryCtrs)[i := AdjustedCtr(old(primaryCtrs[i]), Watched(old(info[i])), lowTic)]
      ensures info == old(info)[i := AdjustedInfo(old(primaryCtrs[i]), Watched(old(info[i])), lowTic)
                                       .(lowIdleFreq := 0.0, sampleTimeElapsed := 0)]
    {
      if info[i].currentState.Observe? {
        DoObserve(i);
      }
      DoAdjust(i);
      info := info[i := info[i].(lowIdleFreq := 0.0, sampleTimeElapsed := 0)];
    }

    method EvaluatePrimaryContainer(i: nat, dt: nat) returns (wants: int)
      requires i < |primaryCtrs| <= |info| && 0 <= info[i].sampleTimeElapsed
      modifies `primaryCtrs, `info, `coreDifference, `idleCoresCount
      ensures primaryCtrs == old(primaryCtrs)[i := EvaluatedCtr(old(primaryCtrs[i]), old(info[i]), currIdleMask, dt, lowTic)]
      ensures info == old(info)[i := EvaluatedInfo(old(primaryCtrs[i]), old(info[i]), currIdleMask, dt, lowTic)]
      ensures var d := Difference(old(primaryCtrs[i]), old(info[i]), currIdleMask, dt, lowTic);
              wants == (if d != 0 then 1 else 0) && coreDifference == old(coreDifference) + d
    {
      Sample(i, dt);
      if info[i].sampleTimeElapsed >= IDLEACTIVE_SAMPLE_RATE {
        CloseWindow(i);
      }
      wants := DoHarvest(i);
    }

    method EvaluateContainers(dt: seq<nat>) returns (needs: int)
      requires Mirrors() && |primaryCtrs| <= |dt|
      requires forall i :: 0 <= i < |state.infos| ==> 0 <= state.infos[i].sampleTimeElapsed
      requires coreDifference == 0
      modifies `primaryCtrs, `info, `coreDifference, `idleCoresCount
      ensures primaryCtrs == EvalCtrs(state.ctrs, state.infos, currIdleMask, dt, lowTic)
      ensures info == EvalInfos(state.ctrs, state.infos, currIdleMask, dt, lowTic) + old(info)[|primaryCtrs|..]
      ensures coreDifference == SumDifference(state, currIdleMask, dt, lowTic, |state.ctrs|)
      ensures needs == Needs(state, currIdleMask, dt, lowTic, |state.ctrs|)
    {
      ghost var infos := info;
      var nr := |primaryCtrs|;
      needs := 0;
      for i := 0 to nr
        invariant UpTo(state.ctrs, infos, primaryCtrs, info, currIdleMask, dt, lowTic, i)
        invariant coreDifference == SumDifference(state, currIdleMask, dt, lowTic, i)
        invariant needs == Needs(state, currIdleMask, dt, lowTic, i)
      {
        UpToNext(state.ctrs, infos, primaryCtrs, info, currIdleMask, dt, lowTic, i);
        assert infos[i] == state.infos[i];
        var wants := EvaluatePrimaryContainer(i, dt[i]);
        needs := needs + wants;
      }
      UpToAll(state.ctrs, infos, primaryCtrs, info, state, currIdleMask, dt, lowTic);
    }

    // The allocator

    /** Assigns one core to the Secondary: mask, list and count together. */
    method TakeCore(core: int)
      requires affinityListPos < affinityList.Length
      modifies affinityList, `affinityListPos, `setAffinityMask, `currSecondaryCoreCount
      ensures affinityList[..] == old(affinityList[..])[old(affinityListPos) := core]
      ensures affinityListPos == old(affinityListPos) + 1
      ensures setAffinityMask == old(setAffinityMask) + {core}
      ensures currSecondaryCoreCount == old(currSecondaryCoreCount) + 1
    {
      setAffinityMask := setAffinityMask + {core};
      affinityList[affinityListPos] := core;
      affinityListPos := affinityListPos + 1;
      currSecondaryCoreCount := currSecondaryCoreCount + 1;
    }

    method ComputeSecondaryAffinityMask(i: nat)
      requires i < |primaryCtrs| <= |info|
      requires primaryCtrs[i].totalEligibleCores == |primaryCtrs[i].cpuList|
      requires affinityListPos + |Picks(primaryCtrs[i].cpuList, info[i].spareCores, lastAffinityMask, currIdleMask)| <= affinityList.Length
      modifies affinityList, `info, `affinityListPos, `setAffinityMask, `currSecondaryCoreCount
      ensures var p := Picks(primaryCtrs[i].cpuList, old(info[i].spareCores), lastAffinityMask, currIdleMask);
              && affinityListPos == old(affinityListPos) + |p|
              && affinityList[..] == Written(old(affinityList[..]), old(affinityListPos), p)
              && setAffinityMask == old(setAffinityMask) + Elems(p)
              && currSecondaryCoreCount == old(currSecondaryCoreCount) + |p|
              && info == old(info)[i := old(info[i]).(coresAllocated := |p|)]
    {
      hide Picks, Written, Scanned;
      var cpus, spare := primaryCtrs[i].cpuList, info[i].spareCores;
      ghost var x := Scan(cpus, spare, lastAffinityMask, currIdleMask, affinityList[..], affinityListPos, setAffinityMask);
      if spare <= 0 {
        NothingPicked(x);
        info := info[i := info[i].(coresAllocated := 0)];
        return;
      }
      var actualCoresAllocated := 0;
      var c := primaryCtrs[i].totalEligibleCores;
      ghost var left: nat := c;
      ScanStart(x);
      while c > 0
        invariant 0 <= c == left && 0 <= actualCoresAllocated < spare
        invariant affinityListPos == x.start + actualCoresAllocated
        invariant currSecondaryCoreCount == old(currSecondaryCoreCount) + actualCoresAllocated
        invariant Scanned(x, c, actualCoresAllocated, affinityList[..], setAffinityMask)
        invariant info == old(info)
      {
        var core := cpus[c - 1];
        ScanStep(x, c, actualCoresAllocated, affinityList[..], setAffinityMask);
        if core !in lastAffinityMask && core in currIdleMask {
        } else {
          TakeCore(core);
          actualCoresAllocated := actualCoresAllocated + 1;
          if actualCoresAllocated == spare {
            left := c - 1;
            break;
          }
        }
        c := c - 1;
        left := c;
      }
      ScanEnd(x, left, actualCoresAllocated, affinityList[..], setAffinityMask);
      info := info[i := info[i].(coresAllocated := actualCoresAllocated)];
    }

    /** The request side of the handshake, as one step: raise the flag, wait until it is cleared. */
    method SchedAllSecondary()
      requires affinityList.Length == SLOTS && numAffinity <= SLOTS
      modifies `rebalanceAction, `requests
      ensures requests == old(requests) + [Request(old(rebalanceAction), affinityList[..numAffinity])]
      ensures rebalanceAction == 0
    {
      requests := requests + [Request(rebalanceAction, affinityList[..numAffinity])];
      rebalanceAction := 0;
    }

    /** The scan of all Primaries: list slots, mask and counts are rebuilt. */
    method PickFromAll()
      requires Mirrors() && affinityList.Length == SLOTS && Inv(state, lowTic) && currIdleMask == state.idleMask
      modifies affinityList, `info, `affinityListPos, `setAffinityMask, `currSecondaryCoreCount
      ensures AllocatedUpTo(state, old(info), info, |state.ctrs|)
      ensures setAffinityMask == Elems(ListUpTo(state, |state.ctrs|))
      ensures currSecondaryCoreCount == |ListUpTo(state, |state.ctrs|)| <= SLOTS
      ensures affinityList[..] == Written(old(affinityList[..]), 0, ListUpTo(state, |state.ctrs|))
    {
      hide Inv;
      ghost var list, slots := affinityList[..], info;
      currSecondaryCoreCount := 0;
      setAffinityMask := {};
      affinityListPos := 0;
      for i := 0 to |primaryCtrs|
        invariant affinityListPos == currSecondaryCoreCount == |ListUpTo(state, i)| <= SLOTS
        invariant affinityList[..] == Written(list, 0, ListUpTo(state, i))
        invariant setAffinityMask == Elems(ListUpTo(state, i))
        invariant AllocatedUpTo(state, slots, info, i)
      {
        ListFits(state, i + 1, lowTic);
        AllocatedUpToNext(state, slots, info, i);
        AllListed(state, i, lowTic);
        ComputeSecondaryAffinityMask(i);
        WrittenOn(list, ListUpTo(state, i), PicksOf(state, i));
        ElemsConcat(ListUpTo(state, i), PicksOf(state, i));
      }
    }

    /** The decision whether to ask for a rebalance, and with which action. */
    method Publish(ghost list: seq<int>) returns (status: int)
      requires affinityList.Length == SLOTS && currSecondaryCoreCount == |list| <= SLOTS
      requires affinityList[..|list|] == list && setAffinityMask == Elems(list)
      requires list != [] && setAffinityMask == lastAffinityMask ==> numAffinity == |list|
      modifies `rebalanceAction, `numAffinity, `requests
      ensures numAffinity == |list|
      ensures status == 0 <==> list != [] && setAffinityMask == lastAffinityMask
      ensures requests == old(requests) + if status == 0 then [] else [Request(ActionFor(list, lastSecondaryCoreCount), list)]
      ensures status != 0 ==> |requests| > 0 && AsksByLength(requests[|requests| - 1].action, list, lastSecondaryCoreCount)
    {
      if currSecondaryCoreCount == 0 {
        rebalanceAction := EMPTY;
        numAffinity := currSecondaryCoreCount;
        SchedAllSecondary();
        return 1;
      } else if currSecondaryCoreCount > lastSecondaryCoreCount {
        rebalanceAction := GROW;
      } else if currSecondaryCoreCount < lastSecondaryCoreCount {
        rebalanceAction := SHRINK;
      } else {
        rebalanceAction := GROW;
      }
      if setAffinityMask != lastAffinityMask {
        numAffinity := currSecondaryCoreCount;
        SchedAllSecondary();
      } else {
        return 0;
      }
      return 1;
    }

    /** Recomputes mask, list and counts, and asks for a rebalance if the mask is empty or has changed. */
    method AllocateCoresToSecondary() returns (status: int)
      requires Consistent()
      modifies affinityList, `info, `affinityListPos, `setAffinityMask, `currSecondaryCoreCount, `lastSecondaryCoreCount,
               `rebalanceAction, `numAffinity, `requests
      ensures info == AllocInfos(state, |state.ctrs|) + old(info)[|state.ctrs|..]
      ensures var list := ListUpTo(state, |state.ctrs|);
              && setAffinityMask == Elems(list) && currSecondaryCoreCount == numAffinity == |list| <= SLOTS
              && affinityList[..numAffinity] == list
              && (status == 0 <==> list != [] && Elems(list) == state.lastMask)
      ensures requests == old(requests) + RequestsOf(state)
    {
      hide Inv;
      ghost var slots := affinityList[..];
      ghost var list := ListUpTo(state, |state.ctrs|);
      lastSecondaryCoreCount := currSecondaryCoreCount;
      PickFromAll();
      AllocatedUpToAll(state, old(info), info);
      WrittenPrefix(slots, list);
      if setAffinityMask == lastAffinityMask {
        UnchangedCount(state, lowTic);
      }
      status := Publish(list);
    }

    /** A rebalance, with the new mask adopted. */
    method Rebalance()
      requires Consistent()
      modifies affinityList, `info, `affinityListPos, `setAffinityMask, `currSecondaryCoreCount, `lastSecondaryCoreCount,
               `rebalanceAction, `numAffinity, `requests, `lastAffinityMask, `state
      ensures Consistent() && state == Allocated(old(state))
      ensures info[|primaryCtrs|..] == old(info[|primaryCtrs|..])
      ensures requests == old(requests) + RequestsOf(old(state))
    {
      hide Inv, ListUpTo, Chained;
      PublishedIsList(state, lowTic);
      AllocateKeeps(state, lowTic);
      var status := AllocateCoresToSecondary();
      lastAffinityMask := setAffinityMask;
      state := Allocated(state);
    }

    /** The rebalance before the first sample: it asks the Monitor to clear the list, and changes nothing else. */
    method InitialRebalance()
      requires Valid() && state.lastMask == {} && state.published == [] && forall i :: 0 <= i < |info| ==> info[i] == INITIAL_INFO
      modifies affinityList, `info, `affinityListPos, `setAffinityMask, `currSecondaryCoreCount, `lastSecondaryCoreCount,
               `rebalanceAction, `numAffinity, `requests
      ensures Valid() && state == old(state) && info == old(info)
      ensures requests == old(requests) + [Request(EMPTY, [])]
    {
      hide Inv, Chained, ListUpTo, AllocInfos;
      NothingSpared(state, |state.ctrs|);
      assert state.infos[..|state.ctrs|] == state.infos;
      var status := AllocateCoresToSecondary();
    }

    // The polling loop

    /** A new idle mask is logged before anything else. */
    method LogMaskChange(mask: set<int>, sec: nat, nsec: nat)
      requires Chained(idleMaskChanges, lastIdleMask) && mask != lastIdleMask
      modifies `currIdleMask, `lastIdleMask, `idleMaskChanges
      ensures currIdleMask == lastIdleMask == mask && Chained(idleMaskChanges, mask)
      ensures idleMaskChanges == old(idleMaskChanges) + [MaskChange(sec, nsec, old(lastIdleMask), mask)]
    {
      currIdleMask := mask;
      idleMaskChanges := idleMaskChanges + [MaskChange(sec, nsec, lastIdleMask, currIdleMask)];
      lastIdleMask := currIdleMask;
    }

    /** A new idle mask: logged, then evaluated for every Primary. */
    method TakeSample(mask: set<int>, sec: nat, nsec: nat, dt: seq<nat>) returns (needs: int)
      requires Valid() && |primaryCtrs| <= |dt| && mask != lastIdleMask
      modifies `primaryCtrs, `info, `state, `currIdleMask, `lastIdleMask, `idleMaskChanges, `coreDifference, `idleCoresCount
      ensures Consistent() && state == Evaluated(old(state), mask, dt, lowTic)
      ensures |primaryCtrs| == old(|primaryCtrs|) && info[|primaryCtrs|..] == old(info[|primaryCtrs|..])
      ensures (coreDifference != 0 || needs != 0) == state.triggered
      ensures idleMaskChanges == old(idleMaskChanges) + [MaskChange(sec, nsec, old(lastIdleMask), mask)]
    {
      hide Inv, Canonical, Chained, EvalCtrs, EvalInfos, SumDifference, Needs;
      ghost var s := state;
      ElapsedNonnegative(s, lowTic);
      LogMaskChange(mask, sec, nsec);
      needs := EvaluateContainers(dt);
      TriggerOf(s, mask, dt, lowTic);
      Adopt(s, mask, dt);
    }

    /** The records hold the evaluated values already; so does the ghost state now. */
    ghost method Adopt(s: State, mask: set<int>, dt: seq<nat>)
      requires Shaped(s) && Inv(s, lowTic) && |s.ctrs| <= |dt| && |s.ctrs| <= |info| == SLOTS && Published() && state == s
      requires primaryCtrs == EvalCtrs(s.ctrs, s.infos, mask, dt, lowTic)
      requires info[..|s.ctrs|] == EvalInfos(s.ctrs, s.infos, mask, dt, lowTic)
      requires setAffinityMask == lastAffinityMask == s.lastMask && currIdleMask == lastIdleMask == mask
      requires currSecondaryCoreCount == |s.published| && Chained(idleMaskChanges, lastIdleMask)
      modifies `state
      ensures Consistent() && state == Evaluated(s, mask, dt, lowTic)
    {
      hide Inv;
      EvaluateKeeps(s, mask, dt, lowTic);
      state := Evaluated(s, mask, dt, lowTic);
    }

    method EndIteration()
      requires Consistent()
      modifies `lastAffinityMask, `coreDifference, `idleCoresCount, `state
      ensures Valid() && state == old(state).(evaluated := false)
    {
      hide Inv;
      lastAffinityMask := setAffinityMask;
      coreDifference := 0;
      idleCoresCount := 0;
      InvFrame(state, state.(evaluated := false), lowTic);
      state := state.(evaluated := false);
    }

    /** One iteration of the polling loop on the mask the Monitor has published. */
    method PollOnce(mask: set<int>, sec: nat, nsec: nat, dt: seq<nat>)
      requires Valid() && |primaryCtrs| <= |dt|
      modifies this, affinityList
      ensures Valid() && |primaryCtrs| == old(|primaryCtrs|) && info[|primaryCtrs|..] == old(info[|primaryCtrs|..])
      ensures state == Step(Step(old(state), Evaluate(mask, dt), lowTic), Event.Allocate, lowTic)
      ensures if mask == old(lastIdleMask) then state == old(state) else Iterated(old(state), mask, dt, lowTic, state)
      ensures idleMaskChanges == old(idleMaskChanges)
                                 + if mask == old(lastIdleMask) then [] else [MaskChange(sec, nsec, old(lastIdleMask), mask)]
      ensures requests == old(requests) + if mask == old(lastIdleMask) then [] else RequestsOn(old(state), mask, dt, lowTic)
    {
      hide Inv;
      if mask == lastIdleMask {
        return; // currIdleMask holds this mask already
      }
      IterationIs(state, mask, dt, lowTic);
      IterationExactly(state, mask, dt, lowTic);
      hide Iterated;
      var needs := TakeSample(mask, sec, nsec, dt);
      if coreDifference != 0 || needs != 0 {
        Rebalance();
      }
      EndIteration();
    }

    /** The Listener's side (Listener/listener.cpp): a Primary's slot is filled in, then published. */
    method RegisterPrimary(cpus: seq<int>, threshold: real, target: int, staticTarget: int, minCores: int)
      requires Valid() && Untouched() && |primaryCtrs| < SLOTS
      requires RequestOk(state, Registration(cpus, threshold, target, staticTarget, minCores), lowTic)
      modifies `primaryCtrs, `state
      ensures Valid() && Untouched()
      ensures state == Step(old(state), Register(Registration(cpus, threshold, target, staticTarget, minCores)), lowTic)
    {
      hide Inv;
      RegisterKeeps(state, Registration(cpus, threshold, target, staticTarget, minCores), lowTic);
      var total := |cpus|;
      var ci := PrimaryCtr(cpus, threshold, target, staticTarget, total, total - target, minCores);
      primaryCtrs := primaryCtrs + [ci];
      state := state.(ctrs := state.ctrs + [ci], infos := state.infos + [INITIAL_INFO]);
    }
  }
}
