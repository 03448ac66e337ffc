/**
 How container slots come into the shared block while the other threads read
 it: the Listener fills a slot field by field and raises the count last
 (Listener/listener.cpp, Listener/getpids.c); the Balancer adjusts published
 Primary slots, the Monitor refreshes the pid caches of published Secondary
 slots (Monitor/monitor.c). One shared write per step, in any interleaving.
 */
module Publication {
  import BalancerSteps
  import opened Controller
  import opened Requests

  const MAX_PIDS := 128

  /** What a registration request for a Primary carries. */
  datatype Registration = Registration(cpus: seq<int>, threshold: real, lowTic: int, target: int, staticTarget: int, minCores: int)

  datatype PrimarySlot = PrimarySlot(cpus: seq<int>, numCpus: int, threshold: real, lowTic: int,
                                     target: int, staticTarget: int, total: int, maxCores: int, minCores: int)

  datatype SecondarySlot = SecondarySlot(parentPid: int, nrPids: nat, pids: seq<int>)

  /** `done` writes into the next free slot have been made. */
  datatype ListenerAt = Idle | Filling(req: Registration, done: nat) | Joining(pid: int, done: nat)

  /** The target of a slot has been written, its maximum not yet. */
  datatype BalancerAt = Steady | Adjusting(slot: nat)

  /** The pid cache of a slot is being rewritten at position `next`; `written`: the pid is there, the count not yet. */
  datatype MonitorAt = Resting | Refreshing(slot: nat, next: nat, written: bool)

  datatype State = State(
    primaries: seq<PrimarySlot>, nrPrimaries: nat,
    secondaries: seq<SecondarySlot>, nrSecondaries: nat,
    listener: ListenerAt, balancer: BalancerAt, monitor: MonitorAt,
    registered: seq<Registration>, joined: seq<int>)

  datatype Event =
    | AskPrimary(req: Registration)
    | AskSecondary(pid: int)
    | Listener
    | SetTarget(slot: nat, target: int)
    | SetMaximum
    | Refresh(slot: nat)
    | CachePid(pid: int)
    | CountPid
    | EndRefresh

  /** The write that follows the first `done` ones: CPUs, their number, then the other fields. */
  function Filled(slot: PrimarySlot, r: Registration, done: nat): PrimarySlot
    requires |r.cpus| <= |slot.cpus|
  {
    var n := |r.cpus|;
    if done < n then slot.(cpus := slot.cpus[done := r.cpus[done]])
    else if done == n then slot.(numCpus := n)
    else if done == n + 1 then slot.(threshold := r.threshold)
    else if done == n + 2 then slot.(lowTic := r.lowTic)
    else if done == n + 3 then slot.(target := r.target)
    else if done == n + 4 then slot.(staticTarget := r.staticTarget)
    else if done == n + 5 then slot.(minCores := r.minCores)
    else if done == n + 6 then slot.(total := slot.numCpus)
    else slot.(maxCores := slot.total - slot.target)
  }

  const AFTER_CPUS := 8

  function ListenerStep(s: State): State {
    match s.listener
    case Idle => s
    case Filling(r, done) =>
      if s.nrPrimaries >= |s.primaries| || |r.cpus| > |s.primaries[s.nrPrimaries].cpus| then s
      else if done < |r.cpus| + AFTER_CPUS then
        s.(primaries := s.primaries[s.nrPrimaries := Filled(s.primaries[s.nrPrimaries], r, done)], listener := Filling(r, done + 1))
      else s.(nrPrimaries := s.nrPrimaries + 1, registered := s.registered + [r], listener := Idle)
    case Joining(pid, done) =>
      if s.nrSecondaries >= |s.secondaries| then s
      else
        var slot := s.secondaries[s.nrSecondaries];
        if done == 0 then s.(secondaries := s.secondaries[s.nrSecondaries := slot.(parentPid := pid)], listener := Joining(pid, 1))
        else if done == 1 then s.(secondaries := s.secondaries[s.nrSecondaries := slot.(nrPids := 0)], listener := Joining(pid, 2))
        else s.(nrSecondaries := s.nrSecondaries + 1, joined := s.joined + [pid], listener := Idle)
  }

  function Step(s: State, e: Event): State {
    match e
    case AskPrimary(r) => if s.listener.Idle? then s.(listener := Filling(r, 0)) else s
    case AskSecondary(pid) => if s.listener.Idle? then s.(listener := Joining(pid, 0)) else s
    case Listener => ListenerStep(s)
    case SetTarget(i, t) =>
      if i < s.nrPrimaries <= |s.primaries| && (s.balancer.Adjusting? ==> s.balancer.slot == i)
      then s.(primaries := s.primaries[i := s.primaries[i].(target := t)], balancer := Adjusting(i))
      else s
    case SetMaximum =>
      if s.balancer.Adjusting? && s.balancer.slot < |s.primaries|
      then
        var i := s.balancer.slot;
        var slot := s.primaries[i];
        s.(primaries := s.primaries[i := slot.(maxCores := slot.total - slot.target)], balancer := Steady)
      else s
    case Refresh(i) => if s.monitor.Resting? && i < s.nrSecondaries then s.(monitor := Refreshing(i, 0, false)) else s
    case CachePid(pid) =>
      if s.monitor.Refreshing? && !s.monitor.written
         && s.monitor.slot < |s.secondaries| && s.monitor.next < |s.secondaries[s.monitor.slot].pids|
      then
        var i, k := s.monitor.slot, s.monitor.next;
        var slot := s.secondaries[i];
        s.(secondaries := s.secondaries[i := slot.(pids := slot.pids[k := pid])], monitor := Refreshing(i, k, true))
      else s
    case CountPid =>
      if s.monitor.Refreshing? && s.monitor.written && s.monitor.slot < |s.secondaries|
      then
        var i, k := s.monitor.slot, s.monitor.next;
        s.(secondaries := s.secondaries[i := s.secondaries[i].(nrPids := k + 1)], monitor := Refreshing(i, k + 1, false))
      else s
    case EndRefresh => s.(monitor := Resting)
  }

  function Initial(): State {
    State(seq(SLOTS, _ => PrimarySlot(seq(SLOTS, _ => 0), 0, 0.0, 0, 0, 0, 0, 0, 0)), 0,
          seq(SLOTS, _ => SecondarySlot(0, 0, seq(MAX_PIDS, _ => 0))), 0, Idle, Steady, Resting, [], [])
  }

  function Run(es: seq<Event>): State {
    if |es| == 0 then Initial() else Step(Run(es[..|es| - 1]), es[|es| - 1])
  }

  // The invariant

  /** The first `done` writes of a registration are in the slot. */
  predicate Holds(slot: PrimarySlot, r: Registration, done: nat) {
    var n := |r.cpus|;
    && n <= |slot.cpus|
    && (forall k :: 0 <= k < n && k < done ==> slot.cpus[k] == r.cpus[k])
    && (done > n ==> slot.numCpus == n)
    && (done > n + 1 ==> slot.threshold == r.threshold)
    && (done > n + 2 ==> slot.lowTic == r.lowTic)
    && (done > n + 3 ==> slot.target == r.target)
    && (done > n + 4 ==> slot.staticTarget == r.staticTarget)
    && (done > n + 5 ==> slot.minCores == r.minCores)
    && (done > n + 6 ==> slot.total == n)
    && (done > n + 7 ==> slot.maxCores == slot.total - slot.target)
  }

  /** A slot that a registration has filled; the Balancer may have moved the target since. */
  predicate Complete(slot: PrimarySlot, r: Registration) {
    && slot.numCpus == |r.cpus| <= |slot.cpus| && slot.cpus[..slot.numCpus] == r.cpus
    && slot.threshold == r.threshold && slot.lowTic == r.lowTic
    && slot.staticTarget == r.staticTarget && slot.minCores == r.minCores
    && slot.total == |r.cpus|
  }

  /** The same, with the maximum in step with the target. */
  predicate Whole(slot: PrimarySlot, r: Registration) {
    Complete(slot, r) && slot.maxCores == slot.total - slot.target
  }

  predicate PrimariesOk(s: State) {
    && |s.primaries| == SLOTS && |s.registered| == s.nrPrimaries <= SLOTS
    && (forall i :: 0 <= i < s.nrPrimaries ==> Complete(s.primaries[i], s.registered[i]))
    && (forall i :: 0 <= i < s.nrPrimaries && s.balancer != Adjusting(i) ==> Whole(s.primaries[i], s.registered[i]))
    && (s.balancer.Adjusting? ==> s.balancer.slot < s.nrPrimaries)
    && (s.listener.Filling? && s.nrPrimaries < SLOTS && s.listener.done > 0 ==>
          Holds(s.primaries[s.nrPrimaries], s.listener.req, s.listener.done))
  }

  predicate CacheOk(slot: SecondarySlot) { slot.nrPids <= |slot.pids| == MAX_PIDS }

  predicate SecondariesOk(s: State) {
    && |s.secondaries| == SLOTS && |s.joined| == s.nrSecondaries <= SLOTS
    && (forall i :: 0 <= i < SLOTS ==> CacheOk(s.secondaries[i]))
    && (forall i :: 0 <= i < s.nrSecondaries ==> s.secondaries[i].parentPid == s.joined[i])
    && (s.listener.Joining? && s.nrSecondaries < SLOTS ==>
          && (s.listener.done > 0 ==> s.secondaries[s.nrSecondaries].parentPid == s.listener.pid)
          && (s.listener.done > 1 ==> s.secondaries[s.nrSecondaries].nrPids == 0))
    && (s.monitor.Refreshing? ==>
          && s.monitor.slot < s.nrSecondaries && s.monitor.next + (if s.monitor.written then 1 else 0) <= MAX_PIDS
          && (s.monitor.next > 0 ==> s.secondaries[s.monitor.slot].nrPids == s.monitor.next))
  }

  lemma FillKeeps(slot: PrimarySlot, r: Registration, done: nat)
    requires |r.cpus| <= |slot.cpus| && Holds(slot, r, done) && done < |r.cpus| + AFTER_CPUS
    ensures Holds(Filled(slot, r, done), r, done + 1)
  {}

  lemma FilledIsWhole(slot: PrimarySlot, r: Registration)
    requires Holds(slot, r, |r.cpus| + AFTER_CPUS)
    ensures Whole(slot, r) && slot.target == r.target
  {}

  lemma FillsKept(s: State)
    requires PrimariesOk(s)
    ensures PrimariesOk(ListenerStep(s))
  {
    if s.listener.Filling? && s.nrPrimaries < SLOTS {
      var slot := s.primaries[s.nrPrimaries];
      if |s.listener.req.cpus| <= |slot.cpus| {
        if s.listener.done < |s.listener.req.cpus| + AFTER_CPUS {
          FillKeeps(slot, s.listener.req, s.listener.done);
        } else {
          FilledIsWhole(slot, s.listener.req);
        }
        hide Filled, Holds;
      }
    }
  }

  lemma TargetsKept(s: State, e: Event)
    requires PrimariesOk(s) && !e.Listener?
    ensures PrimariesOk(Step(s, e))
  {
    hide Holds;
    if e.AskPrimary? && s.listener.Idle? {
      assert Step(s, e).listener.done == 0;
    }
  }

  lemma PrimariesKept(s: State, e: Event)
    requires PrimariesOk(s)
    ensures PrimariesOk(Step(s, e))
  {
    if e.Listener? {
      FillsKept(s);
    } else {
      TargetsKept(s, e);
    }
  }

  lemma SecondariesKept(s: State, e: Event)
    requires SecondariesOk(s)
    ensures SecondariesOk(Step(s, e))
  {}

  lemma {:induction false} Reachable(es: seq<Event>)
    ensures PrimariesOk(Run(es)) && SecondariesOk(Run(es))
  {
    hide Step, PrimariesOk, SecondariesOk;
    if |es| > 0 {
      Reachable(es[..|es| - 1]);
      PrimariesKept(Run(es[..|es| - 1]), es[|es| - 1]);
      SecondariesKept(Run(es[..|es| - 1]), es[|es| - 1]);
    } else {
      InitialOk();
    }
  }

  lemma InitialOk()
    ensures PrimariesOk(Initial()) && SecondariesOk(Initial())
  {}

  /** A slot as the Balancer reads it. */
  function Seen(slot: PrimarySlot): PrimaryCtr
    requires 0 <= slot.numCpus <= |slot.cpus|
  {
    PrimaryCtr(slot.cpus[..slot.numCpus], slot.threshold, slot.target, slot.staticTarget, slot.total, slot.maxCores, slot.minCores)
  }

  /**
   A reader below the count never sees a slot half written, in any interleaving:
   only the maximum lags behind while the Balancer itself moves a target.
   */
  lemma PublishedWhole(es: seq<Event>)
    ensures var s := Run(es);
            && s.nrPrimaries <= |s.primaries| && s.nrPrimaries == |s.registered|
            && s.nrSecondaries <= |s.secondaries| && s.nrSecondaries == |s.joined|
            && (forall i :: 0 <= i < s.nrPrimaries ==>
                  && 0 <= s.primaries[i].numCpus <= |s.primaries[i].cpus|
                  && var r, seen := s.registered[i], Seen(s.primaries[i]);
                     var whole := BalancerSteps.Registration(r.cpus, r.threshold, seen.targetIdleCores, r.staticTarget, r.minCores);
                     && seen.(maxSecondaryCores := whole.maxSecondaryCores) == whole
                     && (s.balancer != Adjusting(i) ==> seen == whole))
            && (forall i :: 0 <= i < s.nrSecondaries ==>
                  s.secondaries[i].parentPid == s.joined[i] && s.secondaries[i].nrPids <= MAX_PIDS)
  {
    Reachable(es);
    var s := Run(es);
    forall i | 0 <= i < s.nrPrimaries ensures Complete(s.primaries[i], s.registered[i]) {}
    forall i | 0 <= i < s.nrSecondaries ensures s.secondaries[i].nrPids <= MAX_PIDS {
      assert CacheOk(s.secondaries[i]);
    }
  }

  /**
   Writers keep apart: the Listener writes no published slot, the Balancer and
   the Monitor no other; a published slot stays published.
   */
  lemma WritersApart(es: seq<Event>, e: Event)
    ensures var s, t := Run(es), Step(Run(es), e);
            && s.nrPrimaries <= t.nrPrimaries && s.nrSecondaries <= t.nrSecondaries
            && s.registered <= t.registered && s.joined <= t.joined
            && |t.primaries| == |s.primaries| == |t.secondaries| == |s.secondaries| == SLOTS
            && s.nrPrimaries <= SLOTS && s.nrSecondaries <= SLOTS
            && if e.Listener? then
                 && t.primaries[..s.nrPrimaries] == s.primaries[..s.nrPrimaries]
                 && t.secondaries[..s.nrSecondaries] == s.secondaries[..s.nrSecondaries]
               else
                 && t.primaries[s.nrPrimaries..] == s.primaries[s.nrPrimaries..]
                 && t.secondaries[s.nrSecondaries..] == s.secondaries[s.nrSecondaries..]
  {
    Reachable(es);
  }
}
