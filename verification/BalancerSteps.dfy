/** The Balancer's loops, step by step, on values: what is done and what is still to do. */
module BalancerSteps {
  import opened Sets
  import opened Selection
  import opened Controller
  import opened Harvester
  import opened Requests

  /** The request that an allocation makes, if any. */
  ghost function RequestsOf(v: State): seq<Request>
    requires Shaped(v)
  {
    var list := ListUpTo(v, |v.ctrs|);
    if list == [] || Elems(list) != v.lastMask then [Request(ActionFor(list, |v.published|), list)] else []
  }

  /** The requests of one iteration: at most one, and none unless the sample triggers. */
  ghost function RequestsOn(v: State, mask: set<int>, dt: seq<nat>, lowTic: int): seq<Request>
    requires Shaped(v) && |v.ctrs| <= |dt|
  {
    var t := Evaluated(v, mask, dt, lowTic);
    if t.triggered then RequestsOf(t) else []
  }

  /** The record that a registration request leads to. */
  function Registration(cpus: seq<int>, threshold: real, target: int, staticTarget: int, minCores: int): PrimaryCtr {
    PrimaryCtr(cpus, threshold, target, staticTarget, |cpus|, |cpus| - target, minCores)
  }

  /** One iteration, as two steps of the transition system. */
  lemma IterationIs(v: State, mask: set<int>, dt: seq<nat>, lowTic: int)
    requires Shaped(v) && !v.evaluated && |v.ctrs| <= |dt| && mask != v.idleMask
    ensures var t := Evaluated(v, mask, dt, lowTic);
            Step(Step(v, Evaluate(mask, dt), lowTic), Event.Allocate, lowTic)
            == if t.triggered then Allocated(t) else t.(evaluated := false)
    ensures var t := Evaluated(v, mask, dt, lowTic); Shaped(t) && !Allocated(t).evaluated
  {}

  lemma TriggerOf(v: State, mask: set<int>, dt: seq<nat>, lowTic: int)
    requires Shaped(v) && |v.ctrs| <= |dt|
    ensures Evaluated(v, mask, dt, lowTic).triggered
         == (SumDifference(v, mask, dt, lowTic, |v.ctrs|) != 0 || Needs(v, mask, dt, lowTic, |v.ctrs|) != 0)
  {}

  lemma ElapsedNonnegative(v: State, lowTic: int)
    requires Inv(v, lowTic)
    ensures forall i :: 0 <= i < |v.infos| ==> 0 <= v.infos[i].sampleTimeElapsed
  {
    forall i | 0 <= i < |v.infos| ensures 0 <= v.infos[i].sampleTimeElapsed {
      RecordAt(v.ctrs, v.infos, v.lastMask, lowTic, i);
    }
  }

  // Evaluation

  /** The first n records are evaluated, the others as they were. */
  ghost predicate UpTo(ctrs: seq<PrimaryCtr>, infos: seq<BalancerInfo>, ctrs': seq<PrimaryCtr>, infos': seq<BalancerInfo>,
                       active: set<int>, dt: seq<nat>, lowTic: int, n: nat)
  {
    && n <= |ctrs'| == |ctrs| <= |infos| == |infos'| && n <= |dt|
    && (forall k :: 0 <= k < n ==> ctrs'[k] == EvaluatedCtr(ctrs[k], infos[k], active, dt[k], lowTic))
    && (forall k :: 0 <= k < n ==> infos'[k] == EvaluatedInfo(ctrs[k], infos[k], active, dt[k], lowTic))
    && ctrs'[n..] == ctrs[n..] && infos'[n..] == infos[n..]
  }

  lemma UpToNext(ctrs: seq<PrimaryCtr>, infos: seq<BalancerInfo>, ctrs': seq<PrimaryCtr>, infos': seq<BalancerInfo>,
                 active: set<int>, dt: seq<nat>, lowTic: int, n: nat)
    requires UpTo(ctrs, infos, ctrs', infos', active, dt, lowTic, n) && n < |ctrs| && n < |dt|
    ensures ctrs'[n] == ctrs[n] && infos'[n] == infos[n]
    ensures UpTo(ctrs, infos, ctrs'[n := EvaluatedCtr(ctrs[n], infos[n], active, dt[n], lowTic)],
                 infos'[n := EvaluatedInfo(ctrs[n], infos[n], active, dt[n], lowTic)], active, dt, lowTic, n + 1)
  {
    assert ctrs'[n..][0] == ctrs[n..][0] && infos'[n..][0] == infos[n..][0];
    assert ctrs'[n..][1..] == ctrs[n..][1..] && infos'[n..][1..] == infos[n..][1..];
  }

  lemma UpToAll(ctrs: seq<PrimaryCtr>, infos: seq<BalancerInfo>, ctrs': seq<PrimaryCtr>, infos': seq<BalancerInfo>,
                v: State, active: set<int>, dt: seq<nat>, lowTic: int)
    requires Shaped(v) && ctrs == v.ctrs && |ctrs| <= |infos| && v.infos == infos[..|ctrs|] && |ctrs| <= |dt|
    requires UpTo(ctrs, infos, ctrs', infos', active, dt, lowTic, |ctrs|)
    ensures ctrs' == EvalCtrs(ctrs, v.infos, active, dt, lowTic)
    ensures infos' == EvalInfos(ctrs, v.infos, active, dt, lowTic) + infos[|ctrs|..]
  {
    forall i | 0 <= i < |ctrs|
      ensures ctrs'[i] == EvalCtrs(ctrs, v.infos, active, dt, lowTic)[i]
      ensures infos'[i] == EvalInfos(ctrs, v.infos, active, dt, lowTic)[i]
    {
      EvalAt(ctrs, v.infos, active, dt, lowTic, i);
    }
    assert infos' == infos'[..|ctrs|] + infos'[|ctrs|..];
  }

  // Allocation

  /** The first n records carry the new counts, the others are as they were. */
  ghost predicate AllocatedUpTo(v: State, infos: seq<BalancerInfo>, infos': seq<BalancerInfo>, n: nat) {
    && Shaped(v) && n <= |v.ctrs| <= |infos| == |infos'| && v.infos == infos[..|v.ctrs|]
    && (forall k :: 0 <= k < n ==> infos'[k] == AllocInfos(v, |v.ctrs|)[k])
    && infos'[n..] == infos[n..]
  }

  lemma AllocatedUpToNext(v: State, infos: seq<BalancerInfo>, infos': seq<BalancerInfo>, n: nat)
    requires AllocatedUpTo(v, infos, infos', n) && n < |v.ctrs|
    ensures infos'[n] == v.infos[n]
    ensures AllocatedUpTo(v, infos, infos'[n := infos'[n].(coresAllocated := |PicksOf(v, n)|)], n + 1)
  {
    assert infos'[n..][0] == infos[n..][0];
    assert infos'[n..][1..] == infos[n..][1..];
    AllocAt(v, |v.ctrs|, n);
  }

  lemma AllocatedUpToAll(v: State, infos: seq<BalancerInfo>, infos': seq<BalancerInfo>)
    requires AllocatedUpTo(v, infos, infos', |v.ctrs|)
    ensures infos' == AllocInfos(v, |v.ctrs|) + infos[|v.ctrs|..]
  {
    assert infos' == infos'[..|v.ctrs|] + infos'[|v.ctrs|..];
  }

  /** Before the first sample nothing is spared: the allocation lists no core and changes no record. */
  lemma {:induction false} NothingSpared(v: State, n: nat)
    requires Shaped(v) && n <= |v.ctrs| && forall i :: 0 <= i < n ==> v.infos[i] == INITIAL_INFO
    ensures ListUpTo(v, n) == [] && AllocInfos(v, n) == v.infos[..n]
  {
    if n > 0 {
      NothingSpared(v, n - 1);
      assert v.infos[..n] == v.infos[..n - 1] + [v.infos[n - 1]];
    }
  }

  lemma PublishedIsList(v: State, lowTic: int)
    requires Inv(v, lowTic)
    ensures Allocated(v).published == ListUpTo(v, |v.ctrs|)
  {
    AllocateKeepsLists(v, lowTic);
  }

  /** When the mask comes out unchanged, the live prefix is as long as the new list. */
  lemma UnchangedCount(v: State, lowTic: int)
    requires Inv(v, lowTic) && Elems(ListUpTo(v, |v.ctrs|)) == v.lastMask
    ensures ListUpTo(v, |v.ctrs|) == v.published
  {
    AllocateKeepsLists(v, lowTic);
  }

  /** The affinity list has room for every core that can be picked. */
  lemma ListFits(s: State, n: nat, lowTic: int)
    requires Inv(s, lowTic) && n <= |s.ctrs|
    ensures |ListUpTo(s, n)| <= |ListUpTo(s, |s.ctrs|)| <= SLOTS
  {
    var t := Allocated(s);
    AllocateKeepsLists(s, lowTic);
    CanonicalElems(s.ctrs, t.lastMask, lowTic);
    CoresBelow64(s.ctrs, lowTic);
    CpuSetSize(t.lastMask, SLOTS);
    NoDupSize(ListUpTo(s, |s.ctrs|));
    ListGrows(s, n, |s.ctrs|);
  }

  lemma {:induction false} ListGrows(s: State, n: nat, m: nat)
    requires Shaped(s) && n <= m <= |s.ctrs|
    ensures |ListUpTo(s, n)| <= |ListUpTo(s, m)|
  {
    if n < m {
      ListGrows(s, n, m - 1);
    }
  }

  lemma AllListed(s: State, i: nat, lowTic: int)
    requires Inv(s, lowTic) && i < |s.ctrs|
    ensures s.ctrs[i].totalEligibleCores == |s.ctrs[i].cpuList|
  {
    CtrAt(s.ctrs, lowTic, i);
  }

  // List slots

  /** `part` written over `list` from position `start` on. */
  ghost function Written(list: seq<int>, start: nat, part: seq<int>): seq<int>
    requires start + |part| <= |list|
  {
    list[..start] + part + list[start + |part|..]
  }

  lemma WrittenNext(list: seq<int>, start: nat, part: seq<int>, core: int)
    requires start + |part| < |list|
    ensures Written(list, start, part)[start + |part| := core] == Written(list, start, part + [core])
    ensures Elems(part + [core]) == Elems(part) + {core}
  {}

  lemma WrittenPrefix(list: seq<int>, part: seq<int>)
    requires |part| <= |list|
    ensures Written(list, 0, part)[..|part|] == part
  {}

  lemma WrittenOn(list: seq<int>, a: seq<int>, b: seq<int>)
    requires |a| + |b| <= |list|
    ensures Written(Written(list, 0, a), |a|, b) == Written(list, 0, a + b)
  {}

  // The scan of one Primary

  /** What a scan starts from: the Primary, the masks, and the list and mask being built. */
  datatype Scan = Scan(cpus: seq<int>, spare: int, last: set<int>, active: set<int>,
                       list: seq<int>, start: nat, mask: set<int>)
  {
    function All(): seq<int> { Picks(cpus, spare, last, active) }
  }

  /** Positions below c are still to be scanned; the first n picks are in the list and the mask. */
  ghost predicate Scanned(x: Scan, c: nat, n: nat, list: seq<int>, mask: set<int>) {
    && c <= |x.cpus| && n <= |x.All()| && x.start + |x.All()| <= |x.list|
    && x.All()[n..] == Picks(x.cpus[..c], x.spare - n, x.last, x.active)
    && list == Written(x.list, x.start, x.All()[..n])
    && mask == x.mask + Elems(x.All()[..n])
  }

  lemma NothingPicked(x: Scan)
    requires x.spare <= 0 && x.start <= |x.list|
    ensures x.All() == [] && Written(x.list, x.start, []) == x.list && x.mask + Elems<int>([]) == x.mask
  {}

  lemma ScanStart(x: Scan)
    requires x.start + |x.All()| <= |x.list|
    ensures Scanned(x, |x.cpus|, 0, x.list, x.mask)
  {
    assert x.cpus[..|x.cpus|] == x.cpus;
    assert Written(x.list, x.start, []) == x.list;
  }

  lemma ScanStep(x: Scan, c: nat, n: nat, list: seq<int>, mask: set<int>)
    requires Scanned(x, c, n, list, mask) && c > 0 && n < x.spare
    ensures var core := x.cpus[c - 1];
            if Eligible(core, x.last, x.active)
            then x.start + n < |list| == |x.list| && Scanned(x, c - 1, n + 1, list[x.start + n := core], mask + {core})
            else Scanned(x, c - 1, n, list, mask)
  {
    var core, p := x.cpus[c - 1], x.All();
    assert x.cpus[..c][..c - 1] == x.cpus[..c - 1];
    if Eligible(core, x.last, x.active) {
      var rest := Picks(x.cpus[..c - 1], x.spare - n - 1, x.last, x.active);
      assert p[n..] == [core] + rest;
      assert p[n] == p[n..][0] == core;
      assert p[n + 1..] == p[n..][1..] == rest;
      assert p[..n + 1] == p[..n] + [core];
      WrittenNext(x.list, x.start, p[..n], core);
    }
  }

  lemma ScanEnd(x: Scan, c: nat, n: nat, list: seq<int>, mask: set<int>)
    requires Scanned(x, c, n, list, mask) && (c == 0 || n == x.spare)
    ensures n == |x.All()| && list == Written(x.list, x.start, x.All()) && mask == x.mask + Elems(x.All())
  {
    assert x.All()[n..] == [];
    assert x.All()[..n] == x.All();
  }
}
