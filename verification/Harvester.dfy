/**
 The Balancer's whole loop as a transition system over values: Primaries
 register (Listener/listener.cpp), samples are evaluated and cores are
 reallocated (Balancer/main.c, Balancer/balancer.c), in any order.
 */
module Harvester {
  import opened Sets
  import opened Selection
  import opened Controller
  import opened Rebalance

  /** `published` is `affinity_list[0..num_affinity)`; `triggered` is set between evaluation and allocation. */
  datatype State = State(
    ctrs: seq<PrimaryCtr>,
    infos: seq<BalancerInfo>,
    lastMask: set<int>,
    published: seq<int>,
    idleMask: set<int>,
    evaluated: bool,
    triggered: bool)

  datatype Event =
    | Register(ctr: PrimaryCtr)
    | Evaluate(active: set<int>, elapsed: seq<nat>)
    | Allocate

  const START := State([], [], {}, [], {}, false, false)

  // Evaluation of all Primaries

  function EvalCtrs(ctrs: seq<PrimaryCtr>, infos: seq<BalancerInfo>, active: set<int>, dt: seq<nat>, lowTic: int): (r: seq<PrimaryCtr>)
    requires |infos| == |ctrs| <= |dt|
    ensures |r| == |ctrs|
  {
    if |ctrs| == 0 then []
    else
      var n := |ctrs| - 1;
      EvalCtrs(ctrs[..n], infos[..n], active, dt, lowTic) + [EvaluatedCtr(ctrs[n], infos[n], active, dt[n], lowTic)]
  }

  function EvalInfos(ctrs: seq<PrimaryCtr>, infos: seq<BalancerInfo>, active: set<int>, dt: seq<nat>, lowTic: int): (r: seq<BalancerInfo>)
    requires |infos| == |ctrs| <= |dt|
    ensures |r| == |ctrs|
  {
    if |ctrs| == 0 then []
    else
      var n := |ctrs| - 1;
      EvalInfos(ctrs[..n], infos[..n], active, dt, lowTic) + [EvaluatedInfo(ctrs[n], infos[n], active, dt[n], lowTic)]
  }

  lemma {:induction false} EvalAt(ctrs: seq<PrimaryCtr>, infos: seq<BalancerInfo>, active: set<int>, dt: seq<nat>, lowTic: int, i: nat)
    requires i < |ctrs| == |infos| <= |dt|
    ensures EvalCtrs(ctrs, infos, active, dt, lowTic)[i] == EvaluatedCtr(ctrs[i], infos[i], active, dt[i], lowTic)
    ensures EvalInfos(ctrs, infos, active, dt, lowTic)[i] == EvaluatedInfo(ctrs[i], infos[i], active, dt[i], lowTic)
  {
    var n := |ctrs| - 1;
    if i < n {
      EvalAt(ctrs[..n], infos[..n], active, dt, lowTic, i);
    }
  }

  /** Primary i's part in the trigger: the difference it adds to the sum, if any. */
  function DifferenceOf(s: State, active: set<int>, dt: seq<nat>, lowTic: int, i: nat): int
    requires |s.infos| == |s.ctrs| <= |dt| && i < |s.ctrs|
  {
    Difference(s.ctrs[i], s.infos[i], active, dt[i], lowTic)
  }

  /** The global `coreDifference` after the first n Primaries. */
  function SumDifference(s: State, active: set<int>, dt: seq<nat>, lowTic: int, n: nat): int
    requires |s.infos| == |s.ctrs| <= |dt| && n <= |s.ctrs|
  {
    if n == 0 then 0 else SumDifference(s, active, dt, lowTic, n - 1) + DifferenceOf(s, active, dt, lowTic, n - 1)
  }

  /** The number of the first n Primaries that ask for a rebalance. */
  function Needs(s: State, active: set<int>, dt: seq<nat>, lowTic: int, n: nat): nat
    requires |s.infos| == |s.ctrs| <= |dt| && n <= |s.ctrs|
  {
    if n == 0 then 0
    else Needs(s, active, dt, lowTic, n - 1) + if DifferenceOf(s, active, dt, lowTic, n - 1) != 0 then 1 else 0
  }

  // Allocation

  function PicksOf(s: State, i: nat): seq<int>
    requires |s.infos| == |s.ctrs| && i < |s.ctrs|
  {
    Picks(s.ctrs[i].cpuList, s.infos[i].spareCores, s.lastMask, s.idleMask)
  }

  /** The list written for the first n Primaries. */
  function ListUpTo(s: State, n: nat): seq<int>
    requires |s.infos| == |s.ctrs| && n <= |s.ctrs|
  {
    if n == 0 then [] else ListUpTo(s, n - 1) + PicksOf(s, n - 1)
  }

  /** The records of the first n Primaries, with the number of cores picked from each. */
  function AllocInfos(s: State, n: nat): (r: seq<BalancerInfo>)
    requires |s.infos| == |s.ctrs| && n <= |s.ctrs|
    ensures |r| == n
  {
    if n == 0 then [] else AllocInfos(s, n - 1) + [s.infos[n - 1].(coresAllocated := |PicksOf(s, n - 1)|)]
  }

  lemma {:induction false} AllocAt(s: State, n: nat, i: nat)
    requires |s.infos| == |s.ctrs| && i < n <= |s.ctrs|
    ensures AllocInfos(s, n)[i] == s.infos[i].(coresAllocated := |PicksOf(s, i)|)
  {
    if i < n - 1 {
      AllocAt(s, n - 1, i);
    }
  }

  /** Writing `list` over the first slots of an array whose live prefix was `old_`. */
  function Overwritten(old_: seq<int>, list: seq<int>): seq<int> {
    if |list| <= |old_| then list + old_[|list|..] else list[..|old_|]
  }

  /**
   `AllocateCoresToSecondary`: the slots are always rewritten, but the count is
   only updated when the list is empty or the mask has changed.
   */
  function Allocated(s: State): State
    requires |s.infos| == |s.ctrs|
  {
    var list := ListUpTo(s, |s.ctrs|);
    s.(infos := AllocInfos(s, |s.ctrs|), lastMask := Elems(list), evaluated := false, triggered := false,
       published := if list == [] || Elems(list) != s.lastMask then list else Overwritten(s.published, list))
  }

  // Steps and runs

  predicate Shaped(s: State) {
    |s.infos| == |s.ctrs|
  }

  function Evaluated(s: State, active: set<int>, dt: seq<nat>, lowTic: int): State
    requires |s.infos| == |s.ctrs| <= |dt|
  {
    s.(ctrs := EvalCtrs(s.ctrs, s.infos, active, dt, lowTic), infos := EvalInfos(s.ctrs, s.infos, active, dt, lowTic), idleMask := active,
       evaluated := true,
       triggered := SumDifference(s, active, dt, lowTic, |s.ctrs|) != 0 || Needs(s, active, dt, lowTic, |s.ctrs|) > 0)
  }

  /** One step of the loop; an event that is not enabled changes nothing. */
  function Step(s: State, e: Event, lowTic: int): (t: State)
    requires Shaped(s)
    ensures Shaped(t)
  {
    match e
    case Register(r) => s.(ctrs := s.ctrs + [r], infos := s.infos + [INITIAL_INFO])
    case Evaluate(active, dt) =>
      if s.evaluated || active == s.idleMask || |dt| < |s.ctrs| then s else Evaluated(s, active, dt, lowTic)
    case Allocate =>
      if !s.evaluated then s
      else if s.triggered then Allocated(s) else s.(evaluated := false)
  }

  function Run(es: seq<Event>, lowTic: int): (s: State)
    ensures Shaped(s)
  {
    if |es| == 0 then START else Step(Run(es[..|es| - 1], lowTic), es[|es| - 1], lowTic)
  }

  // The invariant

  /** The canonical enumeration of a mask: by Primary, in descending position. */
  function Canonical(ctrs: seq<PrimaryCtr>, mask: set<int>): seq<int> {
    if |ctrs| == 0 then []
    else Canonical(ctrs[..|ctrs| - 1], mask) + Descending(ctrs[|ctrs| - 1].cpuList, mask)
  }

  function AllCores(ctrs: seq<PrimaryCtr>): set<int> {
    if |ctrs| == 0 then {} else AllCores(ctrs[..|ctrs| - 1]) + Elems(ctrs[|ctrs| - 1].cpuList)
  }

  /** Every registration well-formed, and no CPU in two lists. */
  ghost predicate CtrsOk(ctrs: seq<PrimaryCtr>, lowTic: int) {
    |ctrs| == 0 ||
    (&& CtrsOk(ctrs[..|ctrs| - 1], lowTic)
     && CtrOk(ctrs[|ctrs| - 1], lowTic)
     && Elems(ctrs[|ctrs| - 1].cpuList) !! AllCores(ctrs[..|ctrs| - 1]))
  }

  /** One Primary's records against the mask in force. */
  ghost predicate RecordOk(ci: PrimaryCtr, bi: BalancerInfo, mask: set<int>, lowTic: int) {
    && SpareOk(ci, bi, lowTic) && 0 <= bi.sampleTimeElapsed
    && bi.coresAllocated == |Lent(ci.cpuList, mask)| <= ci.totalEligibleCores - lowTic
  }

  ghost predicate RecordsOk(ctrs: seq<PrimaryCtr>, infos: seq<BalancerInfo>, mask: set<int>, lowTic: int) {
    |infos| == |ctrs| &&
    (|ctrs| == 0 ||
     (&& RecordsOk(ctrs[..|ctrs| - 1], infos[..|ctrs| - 1], mask, lowTic)
      && RecordOk(ctrs[|ctrs| - 1], infos[|ctrs| - 1], mask, lowTic)))
  }

  ghost predicate Inv(s: State, lowTic: int) {
    && Shaped(s) && CtrsOk(s.ctrs, lowTic) && RecordsOk(s.ctrs, s.infos, s.lastMask, lowTic)
    && s.lastMask <= AllCores(s.ctrs)
    && s.published == Canonical(s.ctrs, s.lastMask)
  }

  lemma InvFrame(s: State, t: State, lowTic: int)
    requires Inv(s, lowTic) && t == s.(evaluated := t.evaluated)
    ensures Inv(t, lowTic)
  {
    hide CtrsOk, RecordsOk, Canonical, AllCores;
  }

  /** A registration the Balancer can rely on: the standing assumption on requests. */
  ghost predicate RequestOk(s: State, r: PrimaryCtr, lowTic: int) {
    CtrOk(r, lowTic) && Elems(r.cpuList) !! AllCores(s.ctrs)
  }

  // Enumerations

  lemma {:induction false} CoreOf(ctrs: seq<PrimaryCtr>, i: nat)
    requires i < |ctrs|
    ensures Elems(ctrs[i].cpuList) <= AllCores(ctrs)
  {
    if i < |ctrs| - 1 {
      CoreOf(ctrs[..|ctrs| - 1], i);
    }
  }

  lemma {:induction false} CtrAt(ctrs: seq<PrimaryCtr>, lowTic: int, i: nat)
    requires CtrsOk(ctrs, lowTic) && i < |ctrs|
    ensures CtrOk(ctrs[i], lowTic)
    ensures CtrsOk(ctrs[..i], lowTic) && Elems(ctrs[i].cpuList) !! AllCores(ctrs[..i])
  {
    if i < |ctrs| - 1 {
      CtrAt(ctrs[..|ctrs| - 1], lowTic, i);
      assert ctrs[..|ctrs| - 1][..i] == ctrs[..i];
    }
  }

  lemma {:induction false} RecordAt(ctrs: seq<PrimaryCtr>, infos: seq<BalancerInfo>, mask: set<int>, lowTic: int, i: nat)
    requires RecordsOk(ctrs, infos, mask, lowTic) && i < |ctrs|
    ensures RecordOk(ctrs[i], infos[i], mask, lowTic)
  {
    if i < |ctrs| - 1 {
      RecordAt(ctrs[..|ctrs| - 1], infos[..|ctrs| - 1], mask, lowTic, i);
    }
  }

  /** The enumeration lists the mask, each core once. */
  lemma {:induction false} CanonicalElems(ctrs: seq<PrimaryCtr>, mask: set<int>, lowTic: int)
    requires CtrsOk(ctrs, lowTic)
    ensures Elems(Canonical(ctrs, mask)) == AllCores(ctrs) * mask
    ensures NoDup(Canonical(ctrs, mask))
  {
    if |ctrs| > 0 {
      var rest, cpus := ctrs[..|ctrs| - 1], ctrs[|ctrs| - 1].cpuList;
      CanonicalElems(rest, mask, lowTic);
      DescendingElems(cpus, mask);
      ElemsConcat(Canonical(rest, mask), Descending(cpus, mask));
      NoDupConcat(Canonical(rest, mask), Descending(cpus, mask));
    }
  }

  lemma NoDupConcat(a: seq<int>, b: seq<int>)
    requires NoDup(a) && NoDup(b) && Elems(a) !! Elems(b)
    ensures NoDup(a + b)
  {
    forall i, j | 0 <= i < j < |a + b| ensures (a + b)[i] != (a + b)[j] {
      if i < |a| <= j {
        assert a[i] in Elems(a) && b[j - |a|] in Elems(b);
      }
    }
  }

  // Allocation and the mask

  lemma {:induction false} ListWithin(s: State, n: nat)
    requires Shaped(s) && n <= |s.ctrs|
    ensures Elems(ListUpTo(s, n)) <= AllCores(s.ctrs[..n])
  {
    if n > 0 {
      ListWithin(s, n - 1);
      ElemsConcat(ListUpTo(s, n - 1), PicksOf(s, n - 1));
      PicksWithin(s.ctrs[n - 1].cpuList, s.infos[n - 1].spareCores, s.lastMask, s.idleMask);
      assert s.ctrs[..n][..n - 1] == s.ctrs[..n - 1];
    }
  }

  /** Each Primary's share of the written list is what was picked from it. */
  lemma {:induction false} ListShare(s: State, n: nat, i: nat, lowTic: int)
    requires Shaped(s) && CtrsOk(s.ctrs, lowTic) && i < n <= |s.ctrs|
    ensures Elems(s.ctrs[i].cpuList) * Elems(ListUpTo(s, n)) == Elems(PicksOf(s, i))
  {
    ElemsConcat(ListUpTo(s, n - 1), PicksOf(s, n - 1));
    PicksWithin(s.ctrs[n - 1].cpuList, s.infos[n - 1].spareCores, s.lastMask, s.idleMask);
    CtrAt(s.ctrs, lowTic, n - 1);
    if i == n - 1 {
      ListWithin(s, n - 1);
    } else {
      ListShare(s, n - 1, i, lowTic);
      CoreOf(s.ctrs[..n - 1], i);
    }
  }

  /** The written list is the canonical enumeration of its own set. */
  lemma {:induction false} ListCanonical(s: State, n: nat, lowTic: int)
    requires Shaped(s) && CtrsOk(s.ctrs, lowTic) && n <= |s.ctrs|
    ensures ListUpTo(s, n) == Canonical(s.ctrs[..n], Elems(ListUpTo(s, |s.ctrs|)))
  {
    if n > 0 {
      var mask := Elems(ListUpTo(s, |s.ctrs|));
      var ci, p := s.ctrs[n - 1], PicksOf(s, n - 1);
      ListCanonical(s, n - 1, lowTic);
      assert s.ctrs[..n][..n - 1] == s.ctrs[..n - 1];
      CtrAt(s.ctrs, lowTic, n - 1);
      PicksDescending(ci.cpuList, s.infos[n - 1].spareCores, s.lastMask, s.idleMask);
      ListShare(s, |s.ctrs|, n - 1, lowTic);
      forall c | c in ci.cpuList ensures c in Elems(p) <==> c in mask {
        assert c in Elems(ci.cpuList) * mask <==> c in Elems(p);
      }
      DescendingFrame(ci.cpuList, Elems(p), mask);
    }
  }

  lemma AllocateKeepsLists(s: State, lowTic: int)
    requires Inv(s, lowTic)
    ensures var t := Allocated(s);
            && t.published == ListUpTo(s, |s.ctrs|) == Canonical(t.ctrs, t.lastMask)
            && t.lastMask <= AllCores(t.ctrs)
            && (t.lastMask == s.lastMask ==> t.published == s.published)
  {
    var list := ListUpTo(s, |s.ctrs|);
    assert s.ctrs[..|s.ctrs|] == s.ctrs;
    ListCanonical(s, |s.ctrs|, lowTic);
    ListWithin(s, |s.ctrs|);
    assert s.lastMask == Elems(list) ==> list + s.published[|list|..] == s.published;
  }

  lemma AllocateKeepsRecord(s: State, i: nat, lowTic: int)
    requires Inv(s, lowTic) && i < |s.ctrs|
    ensures RecordOk(s.ctrs[i], s.infos[i].(coresAllocated := |PicksOf(s, i)|), Allocated(s).lastMask, lowTic)
  {
    var ci, spare := s.ctrs[i], s.infos[i].spareCores;
    CtrAt(s.ctrs, lowTic, i);
    RecordAt(s.ctrs, s.infos, s.lastMask, lowTic, i);
    ListShare(s, |s.ctrs|, i, lowTic);
    PicksNoDup(ci.cpuList, spare, s.lastMask, s.idleMask);
    NoDupSize(PicksOf(s, i));
    PicksCount(ci.cpuList, spare, s.lastMask, s.idleMask);
  }

  lemma {:induction false} AllocateKeepsRecords(s: State, n: nat, lowTic: int)
    requires Inv(s, lowTic) && n <= |s.ctrs|
    ensures RecordsOk(s.ctrs[..n], AllocInfos(s, n), Allocated(s).lastMask, lowTic)
  {
    hide CtrsOk, RecordOk, Canonical, AllCores;
    if n > 0 {
      AllocateKeepsRecords(s, n - 1, lowTic);
      AllocateKeepsRecord(s, n - 1, lowTic);
      assert s.ctrs[..n][..n - 1] == s.ctrs[..n - 1];
      assert AllocInfos(s, n)[..n - 1] == AllocInfos(s, n - 1);
    }
  }

  lemma AllocateKeeps(s: State, lowTic: int)
    requires Inv(s, lowTic)
    ensures Inv(Allocated(s), lowTic)
  {
    AllocateKeepsLists(s, lowTic);
    AllocateKeepsRecords(s, |s.ctrs|, lowTic);
    assert s.ctrs[..|s.ctrs|] == s.ctrs;
  }

  /** Evaluation changes no CPU list... */
  lemma {:induction false} EvaluateKeepsLists(ctrs: seq<PrimaryCtr>, infos: seq<BalancerInfo>, mask: set<int>,
                                              active: set<int>, dt: seq<nat>, lowTic: int)
    requires |infos| == |ctrs| <= |dt|
    ensures var ctrs' := EvalCtrs(ctrs, infos, active, dt, lowTic);
            AllCores(ctrs') == AllCores(ctrs) && Canonical(ctrs', mask) == Canonical(ctrs, mask)
  {
    if |ctrs| > 0 {
      var n := |ctrs| - 1;
      EvaluateKeepsLists(ctrs[..n], infos[..n], mask, active, dt, lowTic);
      assert EvalCtrs(ctrs, infos, active, dt, lowTic)[..n] == EvalCtrs(ctrs[..n], infos[..n], active, dt, lowTic);
    }
  }

  /** ... and keeps every record. */
  lemma {:induction false} EvaluateKeepsRecords(ctrs: seq<PrimaryCtr>, infos: seq<BalancerInfo>, mask: set<int>,
                                                active: set<int>, dt: seq<nat>, lowTic: int)
    requires CtrsOk(ctrs, lowTic) && RecordsOk(ctrs, infos, mask, lowTic) && |ctrs| <= |dt|
    ensures var ctrs' := EvalCtrs(ctrs, infos, active, dt, lowTic);
            CtrsOk(ctrs', lowTic) && RecordsOk(ctrs', EvalInfos(ctrs, infos, active, dt, lowTic), mask, lowTic)
  {
    hide AllCores;
    if |ctrs| > 0 {
      var n := |ctrs| - 1;
      EvaluateKeepsRecords(ctrs[..n], infos[..n], mask, active, dt, lowTic);
      EvaluateKeepsLists(ctrs[..n], infos[..n], mask, active, dt, lowTic);
      EvaluateKeepsRecord(ctrs[n], infos[n], mask, active, dt[n], lowTic);
      hide CtrOk, RecordOk;
      assert EvalCtrs(ctrs, infos, active, dt, lowTic)[..n] == EvalCtrs(ctrs[..n], infos[..n], active, dt, lowTic);
      assert EvalInfos(ctrs, infos, active, dt, lowTic)[..n] == EvalInfos(ctrs[..n], infos[..n], active, dt, lowTic);
    }
  }

  lemma EvaluateKeepsRecord(ci: PrimaryCtr, bi: BalancerInfo, mask: set<int>, active: set<int>, dt: nat, lowTic: int)
    requires CtrOk(ci, lowTic) && RecordOk(ci, bi, mask, lowTic)
    ensures CtrOk(EvaluatedCtr(ci, bi, active, dt, lowTic), lowTic)
    ensures RecordOk(EvaluatedCtr(ci, bi, active, dt, lowTic), EvaluatedInfo(ci, bi, active, dt, lowTic), mask, lowTic)
  {
    EvaluateKeepsCtr(ci, bi, active, dt, lowTic);
  }

  lemma EvaluateKeeps(s: State, active: set<int>, dt: seq<nat>, lowTic: int)
    requires Inv(s, lowTic) && |s.ctrs| <= |dt|
    ensures Inv(Evaluated(s, active, dt, lowTic), lowTic)
  {
    hide CtrsOk, AllCores, Canonical;
    EvaluateKeepsLists(s.ctrs, s.infos, s.lastMask, active, dt, lowTic);
    EvaluateKeepsRecords(s.ctrs, s.infos, s.lastMask, active, dt, lowTic);
  }

  lemma WellFormedKeeps(s: State, r: PrimaryCtr, lowTic: int)
    requires Inv(s, lowTic) && RequestOk(s, r, lowTic)
    ensures Inv(Step(s, Register(r), lowTic), lowTic)
  {
    var t := Step(s, Register(r), lowTic);
    assert t.ctrs[..|t.ctrs| - 1] == s.ctrs && t.infos[..|t.ctrs| - 1] == s.infos;
    assert Lent(r.cpuList, s.lastMask) == {};
    DescendingFrame(r.cpuList, s.lastMask, {});
    DescendingNone(r.cpuList);
  }

  lemma KeptIsWellFormed(s: State, r: PrimaryCtr, lowTic: int)
    requires Shaped(s) && CtrsOk(s.ctrs + [r], lowTic)
    ensures RequestOk(s, r, lowTic)
  {
    assert (s.ctrs + [r])[..|s.ctrs|] == s.ctrs;
  }

  /** Registration keeps the invariant exactly when the request is well-formed. */
  lemma RegisterKeeps(s: State, r: PrimaryCtr, lowTic: int)
    requires Inv(s, lowTic)
    ensures Inv(Step(s, Register(r), lowTic), lowTic) <==> RequestOk(s, r, lowTic)
  {
    hide CtrsOk, RecordsOk, RequestOk, Canonical, AllCores;
    if RequestOk(s, r, lowTic) {
      WellFormedKeeps(s, r, lowTic);
    } else if Inv(Step(s, Register(r), lowTic), lowTic) {
      KeptIsWellFormed(s, r, lowTic);
    }
  }

  // Whole runs

  /** Every registration in the run was well-formed when it arrived. */
  ghost predicate Admissible(es: seq<Event>, lowTic: int) {
    |es| == 0 ||
    (&& Admissible(es[..|es| - 1], lowTic)
     && (es[|es| - 1].Register? ==> RequestOk(Run(es[..|es| - 1], lowTic), es[|es| - 1].ctr, lowTic)))
  }

  lemma {:induction false} Reachable(es: seq<Event>, lowTic: int)
    requires Admissible(es, lowTic)
    ensures Inv(Run(es, lowTic), lowTic)
  {
    if |es| > 0 {
      var s, e := Run(es[..|es| - 1], lowTic), es[|es| - 1];
      Reachable(es[..|es| - 1], lowTic);
      match e {
        case Register(r) => RegisterKeeps(s, r, lowTic);
        case Evaluate(active, dt) =>
          if |s.ctrs| <= |dt| {
            EvaluateKeeps(s, active, dt, lowTic);
          }
        case Allocate => AllocateKeeps(s, lowTic);
      }
    }
  }

  lemma ReserveOf(s: State, lowTic: int, i: nat)
    requires Inv(s, lowTic) && i < |s.ctrs|
    ensures Elems(s.published) == s.lastMask
    ensures |Elems(s.ctrs[i].cpuList) - s.lastMask| >= lowTic
    ensures CtrOk(s.ctrs[i], lowTic) && SpareOk(s.ctrs[i], s.infos[i], lowTic)
  {
    var cpus := s.ctrs[i].cpuList;
    CtrAt(s.ctrs, lowTic, i);
    RecordAt(s.ctrs, s.infos, s.lastMask, lowTic, i);
    CanonicalElems(s.ctrs, s.lastMask, lowTic);
    assert AllCores(s.ctrs) * s.lastMask == s.lastMask;
    hide CtrsOk, RecordsOk, Canonical, AllCores;
    NoDupSize(cpus);
    SubsetSize(Lent(cpus, s.lastMask), Elems(cpus));
    assert Elems(cpus) - Lent(cpus, s.lastMask) == Elems(cpus) - s.lastMask;
  }

  /** In every reachable state each Primary keeps LOW_TIC of its cores out of the Secondary's reach. */
  lemma ReserveKept(es: seq<Event>, lowTic: int, i: nat)
    requires Admissible(es, lowTic) && i < |Run(es, lowTic).ctrs|
    ensures var s := Run(es, lowTic);
            var ci, bi := s.ctrs[i], s.infos[i];
            && |Elems(ci.cpuList) - s.lastMask| >= lowTic
            && |Elems(ci.cpuList) - Elems(s.published)| >= lowTic
            && lowTic <= ci.targetIdleCores <= ci.staticTargetIdleCores
            && ci.maxSecondaryCores + ci.targetIdleCores == ci.totalEligibleCores
            && 0 <= bi.spareCores <= ci.totalEligibleCores - lowTic
  {
    Reachable(es, lowTic);
    ReserveOf(Run(es, lowTic), lowTic, i);
  }

  /** In every reachable state the mask, the published list and the counts agree. */
  lemma RepresentationsAgree(es: seq<Event>, lowTic: int)
    requires Admissible(es, lowTic)
    ensures var s := Run(es, lowTic);
            && s.published == Canonical(s.ctrs, s.lastMask)
            && NoDup(s.published) && Elems(s.published) == s.lastMask && |s.published| == |s.lastMask| <= 64
            && forall i :: 0 <= i < |s.ctrs| ==>
                 s.infos[i].coresAllocated == |Elems(s.ctrs[i].cpuList) * Elems(s.published)|
  {
    var s := Run(es, lowTic);
    Reachable(es, lowTic);
    CanonicalElems(s.ctrs, s.lastMask, lowTic);
    assert AllCores(s.ctrs) * s.lastMask == s.lastMask;
    NoDupSize(s.published);
    CoresBelow64(s.ctrs, lowTic);
    CpuSetSize(s.lastMask, 64);
    forall i | 0 <= i < |s.ctrs|
      ensures s.infos[i].coresAllocated == |Elems(s.ctrs[i].cpuList) * Elems(s.published)|
    {
      RecordAt(s.ctrs, s.infos, s.lastMask, lowTic, i);
    }
  }

  lemma {:induction false} CoresBelow64(ctrs: seq<PrimaryCtr>, lowTic: int)
    requires CtrsOk(ctrs, lowTic)
    ensures forall c | c in AllCores(ctrs) :: 0 <= c < 64
  {
    if |ctrs| > 0 {
      CoresBelow64(ctrs[..|ctrs| - 1], lowTic);
    }
  }

  /** The controller's account of its windows holds for every Primary. */
  ghost predicate Histories(s: State) {
    forall i :: 0 <= i < |s.infos| ==> InfoOk(s.infos[i])
  }

  lemma StepKeepsHistories(s: State, e: Event, lowTic: int)
    requires Shaped(s) && Histories(s)
    ensures Histories(Step(s, e, lowTic))
  {
    var t := Step(s, e, lowTic);
    forall i | 0 <= i < |t.infos| ensures InfoOk(t.infos[i]) {
      match e {
        case Register(r) => InitialInfoOk();
        case Evaluate(active, dt) =>
          if t != s {
            EvalAt(s.ctrs, s.infos, active, dt, lowTic, i);
            EvaluateKeepsInfo(s.ctrs[i], s.infos[i], active, dt[i], lowTic);
          }
        case Allocate =>
          if s.evaluated && s.triggered {
            AllocAt(s, |s.ctrs|, i);
          }
      }
    }
  }

  lemma InitialInfoOk()
    ensures InfoOk(INITIAL_INFO)
  {
    assert GeometricSum([], 0) == 0.0;
  }

  lemma {:induction false} HistoriesReachable(es: seq<Event>, lowTic: int)
    ensures Histories(Run(es, lowTic))
  {
    if |es| > 0 {
      HistoriesReachable(es[..|es| - 1], lowTic);
      StepKeepsHistories(Run(es[..|es| - 1], lowTic), es[|es| - 1], lowTic);
    }
  }

  /** What each Primary's windows account for, in every reachable state. */
  lemma ControllerHistory(es: seq<Event>, lowTic: int, i: nat, bound: real)
    requires i < |Run(es, lowTic).ctrs| && bound >= 0.0
    ensures var bi := Run(es, lowTic).infos[i];
            && bi.deficits == GeometricSum(bi.windows, 0)
            && (WindowsWithin(bi.windows, bound) ==> 0.0 <= bi.deficits <= bound)
            && 0.0 <= bi.lowIdleFreq <= bi.sampleTimeElapsed as real
            && bi.rampCtr <= 1 && bi.acbfHigh == ACBF_START_HIGH && bi.acbfLow == ACBF_START_LOW
  {
    var s := Run(es, lowTic);
    HistoriesReachable(es, lowTic);
    assert InfoOk(s.infos[i]);
    if WindowsWithin(s.infos[i].windows, bound) {
      DeficitsBounded(s.infos[i].windows, bound);
    }
  }

  // Between Primaries

  /** Differences of opposite sign cannot cancel: the sum adds nothing to the count of requests. */
  lemma {:induction false} TriggerExact(s: State, active: set<int>, dt: seq<nat>, lowTic: int, n: nat)
    requires Shaped(s) && n <= |s.ctrs| <= |dt|
    ensures SumDifference(s, active, dt, lowTic, n) != 0 ==> Needs(s, active, dt, lowTic, n) > 0
    ensures Needs(s, active, dt, lowTic, n) > 0 <==>
            exists i: nat | i < n :: Triggers(s.ctrs[i], s.infos[i], active, dt[i], lowTic)
  {
    if n > 0 {
      TriggerExact(s, active, dt, lowTic, n - 1);
      var last := Triggers(s.ctrs[n - 1], s.infos[n - 1], active, dt[n - 1], lowTic);
      assert last <==> DifferenceOf(s, active, dt, lowTic, n - 1) != 0;
      if last {
        assert n - 1 < n;
      }
    }
  }

  /** A sample leads to a rebalance exactly when some Primary wants one. */
  lemma RebalanceIffWanted(s: State, active: set<int>, dt: seq<nat>, lowTic: int)
    requires Shaped(s) && |s.ctrs| <= |dt|
    ensures Evaluated(s, active, dt, lowTic).triggered <==>
            exists i: nat | i < |s.ctrs| :: Triggers(s.ctrs[i], s.infos[i], active, dt[i], lowTic)
  {
    TriggerExact(s, active, dt, lowTic, |s.ctrs|);
  }

  /** A Primary registered after the evaluation contributes no core to the allocation. */
  lemma LateArrivalLendsNothing(s: State, r: PrimaryCtr, lowTic: int)
    requires Shaped(s)
    ensures var t := Step(s, Register(r), lowTic);
            && ListUpTo(t, |t.ctrs|) == ListUpTo(s, |s.ctrs|)
            && Allocated(t).published == Allocated(s).published
            && Allocated(t).lastMask == Allocated(s).lastMask
            && Allocated(t).infos == Allocated(s).infos + [INITIAL_INFO]
  {
    var t := Step(s, Register(r), lowTic);
    SamePrefix(s, t, |s.ctrs|);
    assert PicksOf(t, |s.ctrs|) == [];
    SameRecords(s, t, |s.ctrs|);
    assert ListUpTo(t, |t.ctrs|) == ListUpTo(t, |s.ctrs|);
  }

  lemma {:induction false} SameRecords(s: State, t: State, n: nat)
    requires Shaped(s) && Shaped(t) && n <= |s.ctrs| <= |t.ctrs|
    requires s.ctrs == t.ctrs[..|s.ctrs|] && s.infos == t.infos[..|s.ctrs|]
    requires s.lastMask == t.lastMask && s.idleMask == t.idleMask
    ensures AllocInfos(s, n) == AllocInfos(t, n)
  {
    if n > 0 {
      SameRecords(s, t, n - 1);
    }
  }

  lemma {:induction false} SamePrefix(s: State, t: State, n: nat)
    requires Shaped(s) && Shaped(t) && n <= |s.ctrs| <= |t.ctrs|
    requires s.ctrs == t.ctrs[..|s.ctrs|] && s.infos == t.infos[..|s.ctrs|]
    requires s.lastMask == t.lastMask && s.idleMask == t.idleMask
    ensures ListUpTo(s, n) == ListUpTo(t, n)
  {
    if n > 0 {
      SamePrefix(s, t, n - 1);
    }
  }
}
