/**
 The threads of the integrated server as a transition system: one step is one
 critical section, one clock reading or one barrier operation of one thread, in
 any interleaving. Every clock reading is at least the one before it.
 */
module Threads {
  import opened Ledger

  /** `Calling` is the entry of `startReq`; a `Blocked` thread waits for a barrier generation to end. */
  datatype ThreadAt =
    | Calling
    | Blocked(round: nat)
    | SettingUp
    | Issuing
    | Checking(id: nat, genNs: nat)
    | Sleeping(id: nat, until: nat)
    | Started(id: nat)
    | Serving(id: nat, startNs: nat)
    | Finishing(id: nat, svcNs: int)
    | Counting
    | Gone

  /** `finis` counts calls of `finiReq`, `base` those before the measured region, `rois` calls of `_startRoi`. */
  datatype State = State(
    threads: seq<ThreadAt>, round: nat, arrived: nat, sh: Shared, now: nat,
    finis: nat, base: nat, rois: nat, failed: bool, exited: bool)

  datatype Event = Event(thread: nat, clock: nat, gap: nat)

  function Initial(n: nat): State {
    State(seq(n, _ => Calling), 0, 0, FRESH, 0, 0, 0, 0, false, false)
  }

  predicate Enabled(s: State, e: Event) {
    !s.failed && !s.exited && e.thread < |s.threads| && e.clock >= s.now
  }

  function To(s: State, i: nat, at: ThreadAt): State
    requires i < |s.threads|
  {
    s.(threads := s.threads[i := at])
  }

  /** A barrier: the last of the threads to arrive ends the round. */
  function Arrive(s: State, i: nat): State
    requires i < |s.threads|
  {
    var t := To(s, i, Blocked(s.round));
    if s.arrived + 1 == |s.threads| then t.(round := s.round + 1, arrived := 0) else t.(arrived := s.arrived + 1)
  }

  function Step(s: State, e: Event, c: Config): State {
    if !Enabled(s, e) then s
    else
      var i := e.thread;
      var tick := s.(now := e.clock);
      match s.threads[i]
      case Calling => if s.sh.status.Init? then Arrive(s, i) else To(s, i, Issuing)
      case Blocked(r) => if s.round <= r then s else To(s, i, if r == 0 then SettingUp else Issuing)
      case SettingUp => Arrive(tick.(sh := SetUp(s.sh, e.clock)), i)
      case Issuing => To(s.(sh := Issue(s.sh, e.gap)), i, Checking(s.sh.startedReqs, s.sh.lastArrival + e.gap))
      case Checking(id, gen) =>
        var wake := if gen > e.clock + c.minSleepNs then gen else e.clock + c.minSleepNs;
        To(tick, i, if e.clock < gen then Sleeping(id, wake) else Started(id))
      case Sleeping(id, until) => if e.clock < until then tick else To(tick, i, Started(id))
      case Started(id) => To(tick, i, Serving(id, e.clock))
      case Serving(id, start) =>
        if e.clock <= start then s.(failed := true) else To(tick, i, Finishing(id, e.clock - start))
      case Finishing(id, svc) =>
        if !MayFinish(s.sh, id, svc, e.clock) then s.(failed := true)
        else To(tick.(sh := Finish(s.sh, id, svc, e.clock), finis := s.finis + 1), i, Counting)
      case Counting =>
        if !MayCount(s.sh, c) then s.(failed := true)
        else
          var t := To(s.(sh := Counted(s.sh, c)), i, if Dumps(s.sh, c) then Gone else Calling);
          if StartsRoi(s.sh, c) then t.(rois := s.rois + 1, base := s.finis)
          else t.(exited := Dumps(s.sh, c))
      case Gone => s
  }

  function Run(n: nat, es: seq<Event>, c: Config): State {
    if |es| == 0 then Initial(n) else Step(Run(n, es[..|es| - 1], c), es[|es| - 1], c)
  }

  // Counting threads

  function Count(ts: seq<ThreadAt>, p: ThreadAt -> bool): nat {
    if |ts| == 0 then 0 else Count(ts[..|ts| - 1], p) + if p(ts[|ts| - 1]) then 1 else 0
  }

  lemma {:induction false} CountBound(ts: seq<ThreadAt>, p: ThreadAt -> bool)
    ensures Count(ts, p) <= |ts|
    ensures Count(ts, p) == |ts| ==> forall i :: 0 <= i < |ts| ==> p(ts[i])
  {
    if |ts| > 0 {
      CountBound(ts[..|ts| - 1], p);
    }
  }

  lemma {:induction false} CountUpdate(ts: seq<ThreadAt>, p: ThreadAt -> bool, i: nat, at: ThreadAt)
    requires i < |ts|
    ensures Count(ts[i := at], p) == Count(ts, p) - (if p(ts[i]) then 1 else 0) + if p(at) then 1 else 0
  {
    var n := |ts| - 1;
    if i < n {
      CountUpdate(ts[..n], p, i, at);
      assert ts[i := at][..n] == ts[..n][i := at];
    } else {
      assert ts[i := at][..n] == ts[..n];
    }
  }

  lemma {:induction false} CountNone(ts: seq<ThreadAt>, p: ThreadAt -> bool)
    requires forall i :: 0 <= i < |ts| ==> !p(ts[i])
    ensures Count(ts, p) == 0
  {
    if |ts| > 0 {
      CountNone(ts[..|ts| - 1], p);
    }
  }

  // Startup

  predicate IsBlocked0(t: ThreadAt) { t == Blocked(0) }
  predicate IsBlocked1(t: ThreadAt) { t == Blocked(1) }
  predicate IsCounting(t: ThreadAt) { t.Counting? }
  predicate Holding(t: ThreadAt) { t.Checking? || t.Sleeping? || t.Started? || t.Serving? || t.Finishing? }

  /** Where a thread can be in each round of the startup barrier. */
  predicate InRound(t: ThreadAt, round: nat) {
    match round
    case 0 => t.Calling? || IsBlocked0(t)
    case 1 => t.SettingUp? || IsBlocked0(t) || IsBlocked1(t)
    case _ => !t.SettingUp? && (t.Blocked? ==> IsBlocked1(t))
  }

  ghost predicate StartupOk(s: State) {
    && s.round <= 2 && (forall i :: 0 <= i < |s.threads| ==> InRound(s.threads[i], s.round))
    && (s.round == 0 ==> s.sh.status.Init? && s.arrived == Count(s.threads, IsBlocked0))
    && (s.round == 1 ==> s.arrived == Count(s.threads, IsBlocked1) && (s.sh.status.Init? ==> s.arrived == 0))
    && (s.round == 2 ==> !s.sh.status.Init? && s.arrived == 0)
    && (s.round < 2 ==> s.sh.startedReqs == 0)
    && (s.round < 2 ==> s.arrived < |s.threads| || |s.threads| == 0)
    && (s.sh.status.Init? <==> !s.sh.hasDist)
  }

  lemma ArriveKeeps(s: State, i: nat)
    requires StartupOk(s) && i < |s.threads|
    requires (s.round == 0 && s.threads[i].Calling?) || (s.round == 1 && s.threads[i].SettingUp? && !s.sh.status.Init?)
    ensures StartupOk(Arrive(s, i))
  {
    var p := if s.round == 0 then IsBlocked0 else IsBlocked1;
    var ts := s.threads[i := Blocked(s.round)];
    CountUpdate(s.threads, p, i, Blocked(s.round));
    CountBound(ts, p);
    if s.arrived + 1 == |s.threads| {
      forall j | 0 <= j < |ts| ensures InRound(ts[j], s.round + 1) {
        assert p(ts[j]);
      }
      if s.round == 0 {
        CountNone(ts, IsBlocked1);
      }
    }
  }

  lemma StartupKept(s: State, e: Event, c: Config)
    requires StartupOk(s)
    ensures StartupOk(Step(s, e, c))
  {
    if Enabled(s, e) {
      var i := e.thread;
      match s.threads[i] {
        case Calling => if s.sh.status.Init? { ArriveKeeps(s, i); }
        case SettingUp =>
          var t := s.(now := e.clock, sh := SetUp(s.sh, e.clock));
          ArriveKeeps(t, i);
        case Blocked(r) => CountUpdate(s.threads, IsBlocked1, i, SettingUp);
        case _ =>
      }
    }
  }

  // The ledger

  function IdOf(t: ThreadAt): nat
    requires Holding(t)
  {
    t.id
  }

  /** A thread's request is in flight, and its times are in order. */
  predicate HoldsOk(sh: Shared, now: nat, t: ThreadAt) {
    Holding(t) ==>
      && IdOf(t) in sh.inFlight
      && var gen := sh.inFlight[IdOf(t)];
         match t
         case Checking(_, g) => g == gen
         case Sleeping(_, until) => gen <= until
         case Started(_) => gen <= now
         case Serving(_, start) => gen <= start <= now
         case Finishing(_, svc) => svc > 0 && gen + svc <= now
         case _ => true
  }

  ghost predicate Distinct(ts: seq<ThreadAt>) {
    forall i, j :: 0 <= i < j < |ts| && Holding(ts[i]) && Holding(ts[j]) ==> IdOf(ts[i]) != IdOf(ts[j])
  }

  ghost predicate LedgerOk(s: State) {
    && (forall i :: 0 <= i < |s.threads| ==> HoldsOk(s.sh, s.now, s.threads[i]))
    && Distinct(s.threads)
    && (forall id | id in s.sh.inFlight :: id < s.sh.startedReqs)
    && |s.sh.inFlight| == Count(s.threads, Holding)
    && |s.sh.inFlight| + s.finis == s.sh.startedReqs
  }

  ghost predicate RowsOk(sh: Shared) {
    && |sh.queueTimes| == |sh.svcTimes| == |sh.sjrnTimes|
    && forall k :: 0 <= k < |sh.sjrnTimes| ==>
         sh.queueTimes[k] >= 0 && sh.svcTimes[k] > 0 && sh.queueTimes[k] + sh.svcTimes[k] == sh.sjrnTimes[k]
  }

  lemma MoveKeepsLedger(s: State, i: nat, at: ThreadAt, now: nat)
    requires LedgerOk(s) && i < |s.threads| && now >= s.now
    requires Holding(at) <==> Holding(s.threads[i])
    requires Holding(at) ==> IdOf(at) == IdOf(s.threads[i]) && HoldsOk(s.sh, now, at)
    ensures LedgerOk(To(s.(now := now), i, at))
  {
    CountUpdate(s.threads, Holding, i, at);
    var t := To(s.(now := now), i, at);
    forall j | 0 <= j < |t.threads| ensures HoldsOk(t.sh, t.now, t.threads[j]) {
      assert HoldsOk(s.sh, s.now, s.threads[j]);
    }
  }

  lemma IssueKeepsLedger(s: State, i: nat, gap: nat)
    requires LedgerOk(s) && i < |s.threads| && s.threads[i].Issuing?
    ensures LedgerOk(To(s.(sh := Issue(s.sh, gap)), i, Checking(s.sh.startedReqs, s.sh.lastArrival + gap)))
  {
    var at := Checking(s.sh.startedReqs, s.sh.lastArrival + gap);
    var t := To(s.(sh := Issue(s.sh, gap)), i, at);
    CountUpdate(s.threads, Holding, i, at);
    assert t.sh.inFlight.Keys == s.sh.inFlight.Keys + {s.sh.startedReqs};
    forall j | 0 <= j < |t.threads| ensures HoldsOk(t.sh, t.now, t.threads[j]) {
      assert HoldsOk(s.sh, s.now, s.threads[j]);
    }
    forall j | 0 <= j < |s.threads| && Holding(s.threads[j]) ensures IdOf(s.threads[j]) < s.sh.startedReqs {
      assert HoldsOk(s.sh, s.now, s.threads[j]);
    }
  }

  lemma FinishKeepsLedger(s: State, i: nat, now: nat)
    requires LedgerOk(s) && i < |s.threads| && now >= s.now && s.threads[i].Finishing?
    requires MayFinish(s.sh, s.threads[i].id, s.threads[i].svcNs, now)
    ensures LedgerOk(To(s.(now := now, sh := Finish(s.sh, s.threads[i].id, s.threads[i].svcNs, now), finis := s.finis + 1), i, Counting))
  {
    var id := s.threads[i].id;
    var t := To(s.(now := now, sh := Finish(s.sh, id, s.threads[i].svcNs, now), finis := s.finis + 1), i, Counting);
    CountUpdate(s.threads, Holding, i, Counting);
    assert t.sh.inFlight.Keys == s.sh.inFlight.Keys - {id};
    forall j | 0 <= j < |t.threads| ensures HoldsOk(t.sh, t.now, t.threads[j]) {
      assert HoldsOk(s.sh, s.now, s.threads[j]);
    }
  }

  /** The ledger is about these parts of the state only. */
  lemma LedgerFrame(s: State, t: State)
    requires LedgerOk(s) && t.threads == s.threads && t.now == s.now && t.finis == s.finis
    requires t.sh.inFlight == s.sh.inFlight && t.sh.startedReqs == s.sh.startedReqs
    ensures LedgerOk(t)
  {
    forall i | 0 <= i < |t.threads| ensures HoldsOk(t.sh, t.now, t.threads[i]) {
      assert HoldsOk(s.sh, s.now, s.threads[i]);
    }
  }

  /** A thread that holds a request and goes on with it. */
  lemma HolderKeepsLedger(s: State, e: Event, c: Config)
    requires LedgerOk(s) && Enabled(s, e)
    requires Holding(s.threads[e.thread]) && !s.threads[e.thread].Finishing?
    ensures LedgerOk(Step(s, e, c))
  {
    var i, t := e.thread, Step(s, e, c);
    assert HoldsOk(s.sh, s.now, s.threads[i]);
    hide LedgerOk;
    if t.failed {
      LedgerFrame(s, t);
    } else {
      MoveKeepsLedger(s, i, t.threads[i], t.now);
      if t.threads == s.threads {
        assert s.threads[i := t.threads[i]] == s.threads;
      }
    }
  }

  /** A thread that holds none, and gets none. */
  lemma OtherKeepsLedger(s: State, e: Event, c: Config)
    requires LedgerOk(s) && Enabled(s, e)
    requires !Holding(s.threads[e.thread]) && !s.threads[e.thread].Issuing?
    ensures LedgerOk(Step(s, e, c))
  {
    hide LedgerOk, HoldsOk;
    var i, t := e.thread, Step(s, e, c);
    if t.threads == s.threads {
      LedgerFrame(s, t);
    } else {
      MoveKeepsLedger(s, i, t.threads[i], t.now);
      LedgerFrame(To(s.(now := t.now), i, t.threads[i]), t);
    }
  }

  lemma LedgerKept(s: State, e: Event, c: Config)
    requires LedgerOk(s)
    ensures LedgerOk(Step(s, e, c))
  {
    if Enabled(s, e) {
      var at := s.threads[e.thread];
      if at.Finishing? && !MayFinish(s.sh, at.id, at.svcNs, e.clock) {
        LedgerFrame(s, Step(s, e, c));
      } else {
        hide LedgerOk;
        if at.Finishing? {
          FinishKeepsLedger(s, e.thread, e.clock);
        } else if at.Issuing? {
          IssueKeepsLedger(s, e.thread, e.gap);
        } else if Holding(at) {
          HolderKeepsLedger(s, e, c);
        } else {
          OtherKeepsLedger(s, e, c);
        }
      }
    }
  }

  /** No assertion fails but the one on the service time, and that exactly when the clock has not advanced. */
  lemma FailsExactly(s: State, e: Event, c: Config)
    requires StartupOk(s) && LedgerOk(s) && Enabled(s, e)
    requires StartsRoi(s.sh, c) ==> !s.sh.status.Roi?
    ensures Step(s, e, c).failed <==> s.threads[e.thread].Serving? && e.clock == s.threads[e.thread].startNs
  {
    assert HoldsOk(s.sh, s.now, s.threads[e.thread]);
    assert InRound(s.threads[e.thread], s.round);
  }

  // The measured region

  /** Which requests have been finished, counted and sampled so far. */
  predicate RegionOk(s: State, c: Config) {
    && s.finis == s.sh.finishedReqs + Count(s.threads, IsCounting)
    && (s.sh.status.Roi? <==> 0 < c.warmupReqs <= s.sh.finishedReqs)
    && s.rois == (if s.sh.status.Roi? then 1 else 0)
    && |s.sh.queueTimes| == |s.sh.svcTimes| == |s.sh.sjrnTimes|
    && (if s.sh.status.Roi? then
          |s.sh.sjrnTimes| + s.base == s.finis && c.warmupReqs <= s.base < c.warmupReqs + |s.threads|
        else |s.sh.sjrnTimes| == 0)
    && (s.exited ==> s.sh.finishedReqs == c.warmupReqs + c.maxReqs && Count(s.threads, IsCounting) < |s.threads|)
  }

  lemma RegionFrame(s: State, t: State, c: Config)
    requires RegionOk(s, c) && |t.threads| == |s.threads| && Count(t.threads, IsCounting) == Count(s.threads, IsCounting)
    requires t.finis == s.finis && t.base == s.base && t.rois == s.rois && t.exited == s.exited
    requires t.sh.finishedReqs == s.sh.finishedReqs && (t.sh.status.Roi? <==> s.sh.status.Roi?)
    requires t.sh.queueTimes == s.sh.queueTimes && t.sh.svcTimes == s.sh.svcTimes && t.sh.sjrnTimes == s.sh.sjrnTimes
    ensures RegionOk(t, c)
  {}

  /** A step that neither finishes nor counts a request. */
  lemma OtherKeepsRegion(s: State, e: Event, c: Config)
    requires RegionOk(s, c) && Enabled(s, e) && (s.sh.status.Init? <==> !s.sh.hasDist)
    requires !s.threads[e.thread].Finishing? && !s.threads[e.thread].Counting?
    ensures RegionOk(Step(s, e, c), c)
  {
    hide RegionOk;
    var i, t := e.thread, Step(s, e, c);
    CountUpdate(s.threads, IsCounting, i, t.threads[i]);
    assert t.threads == s.threads[i := t.threads[i]];
    RegionFrame(s, t, c);
  }

  lemma FinishKeepsRegion(s: State, e: Event, c: Config)
    requires RegionOk(s, c) && Enabled(s, e) && s.threads[e.thread].Finishing?
    ensures RegionOk(Step(s, e, c), c)
  {
    CountUpdate(s.threads, IsCounting, e.thread, Counting);
  }

  lemma CountKeepsRegion(s: State, e: Event, c: Config)
    requires StartupOk(s) && RegionOk(s, c) && Enabled(s, e) && s.threads[e.thread].Counting?
    ensures RegionOk(Step(s, e, c), c)
  {
    var i, t := e.thread, Step(s, e, c);
    assert InRound(s.threads[i], s.round);
    hide StartupOk;
    CountUpdate(s.threads, IsCounting, i, t.threads[i]);
    CountBound(t.threads, IsCounting);
    if !t.failed {
      assert !IsCounting(t.threads[i]);
    }
  }

  lemma RegionKept(s: State, e: Event, c: Config)
    requires StartupOk(s) && RegionOk(s, c)
    ensures RegionOk(Step(s, e, c), c)
  {
    if Enabled(s, e) {
      assert s.sh.status.Init? <==> !s.sh.hasDist;
      hide RegionOk, StartupOk;
      if s.threads[e.thread].Finishing? {
        FinishKeepsRegion(s, e, c);
      } else if s.threads[e.thread].Counting? {
        CountKeepsRegion(s, e, c);
      } else {
        OtherKeepsRegion(s, e, c);
      }
    }
  }

  lemma RowsKept(s: State, e: Event, c: Config)
    requires LedgerOk(s) && RowsOk(s.sh)
    ensures RowsOk(Step(s, e, c).sh)
  {
    if Enabled(s, e) {
      assert HoldsOk(s.sh, s.now, s.threads[e.thread]);
      hide LedgerOk;
    }
  }

  // Whole runs

  ghost predicate Inv(s: State, c: Config) {
    StartupOk(s) && LedgerOk(s) && RegionOk(s, c) && RowsOk(s.sh)
  }

  lemma InitialOk(n: nat, c: Config)
    ensures Inv(Initial(n), c)
  {
    CountNone(Initial(n).threads, IsBlocked0);
    CountNone(Initial(n).threads, IsCounting);
    CountNone(Initial(n).threads, Holding);
  }

  lemma StepSize(s: State, e: Event, c: Config)
    ensures |Step(s, e, c).threads| == |s.threads|
  {}

  lemma {:induction false} Reachable(n: nat, es: seq<Event>, c: Config)
    ensures Inv(Run(n, es, c), c) && |Run(n, es, c).threads| == n
  {
    if |es| == 0 {
      InitialOk(n, c);
    } else {
      var s, e := Run(n, es[..|es| - 1], c), es[|es| - 1];
      hide Step, StartupOk, LedgerOk, RegionOk, RowsOk;
      Reachable(n, es[..|es| - 1], c);
      StepSize(s, e, c);
      StartupKept(s, e, c);
      LedgerKept(s, e, c);
      RegionKept(s, e, c);
      RowsKept(s, e, c);
    }
  }

  /** The clock advances between any two readings. */
  predicate Advancing(n: nat, es: seq<Event>, c: Config) {
    |es| == 0 ||
    (Advancing(n, es[..|es| - 1], c) && es[|es| - 1].clock > Run(n, es[..|es| - 1], c).now)
  }

  /** At some step a service is measured at the very reading it started with. */
  predicate Stalled(n: nat, es: seq<Event>, c: Config) {
    |es| > 0 &&
    var s, e := Run(n, es[..|es| - 1], c), es[|es| - 1];
    || Stalled(n, es[..|es| - 1], c)
    || (Enabled(s, e) && s.threads[e.thread].Serving? && e.clock == s.threads[e.thread].startNs)
  }

  /** An assertion of the harness fails in a run if and only if the clock stands still over a service. */
  lemma {:induction false} FailsIffStalled(n: nat, es: seq<Event>, c: Config)
    ensures Run(n, es, c).failed <==> Stalled(n, es, c)
  {
    if |es| > 0 {
      var s, e := Run(n, es[..|es| - 1], c), es[|es| - 1];
      FailsIffStalled(n, es[..|es| - 1], c);
      Reachable(n, es[..|es| - 1], c);
      if Enabled(s, e) {
        CountsOnce(s, c);
        FailsExactly(s, e, c);
      }
    }
  }

  /** With an advancing clock, no assertion fails in any run. */
  lemma {:induction false} AssertionsHold(n: nat, es: seq<Event>, c: Config)
    requires Advancing(n, es, c)
    ensures !Run(n, es, c).failed
  {
    if |es| > 0 {
      var s, e := Run(n, es[..|es| - 1], c), es[|es| - 1];
      AssertionsHold(n, es[..|es| - 1], c);
      Reachable(n, es[..|es| - 1], c);
      if Enabled(s, e) {
        assert HoldsOk(s.sh, s.now, s.threads[e.thread]);
        CountsOnce(s, c);
        FailsExactly(s, e, c);
      }
    }
  }

  /** The measured region has not begun when its start is due. */
  lemma CountsOnce(s: State, c: Config)
    requires RegionOk(s, c)
    ensures StartsRoi(s.sh, c) ==> !s.sh.status.Roi?
  {}

  /**
   When the statistics are dumped, the number of samples misses the number of
   requests asked for by less than the number of threads, namely by how many more
   are finished but not counted now than when the measured region began; with one
   thread it is exact. The measured region has begun once.
   */
  lemma SamplesAtDump(n: nat, es: seq<Event>, c: Config)
    requires Run(n, es, c).exited && c.warmupReqs >= 1 && c.maxReqs >= 1
    ensures var s := Run(n, es, c);
            && s.rois == 1 && s.sh.status.Roi?
            && |s.sh.sjrnTimes| == c.maxReqs + Count(s.threads, IsCounting) - (s.base - c.warmupReqs)
            && -(n as int) < |s.sh.sjrnTimes| - c.maxReqs < n
            && (n == 1 ==> |s.sh.sjrnTimes| == c.maxReqs)
  {
    Reachable(n, es, c);
    CountBound(Run(n, es, c).threads, IsCounting);
  }

  /** Without a warmup nothing is ever sampled: the region that would be dumped never begins. */
  lemma NoWarmupNoSamples(n: nat, es: seq<Event>, c: Config)
    ensures var s := Run(n, es, c);
            && (c.warmupReqs == 0 ==> s.rois == 0 && |s.sh.sjrnTimes| == 0)
            && s.rois <= 1 && (s.rois == 1 <==> 0 < c.warmupReqs <= s.sh.finishedReqs)
  {
    Reachable(n, es, c);
  }

  /** Every request has its own id and is either in flight, at one thread, or finished; rows add up. */
  lemma LedgerSound(n: nat, es: seq<Event>, c: Config, i: nat, j: nat)
    requires i <= j < n
    ensures var s := Run(n, es, c);
            && |s.threads| == n
            && |s.sh.inFlight| + s.finis == s.sh.startedReqs && |s.sh.inFlight| == Count(s.threads, Holding) <= n
            && (i < j && Holding(s.threads[i]) && Holding(s.threads[j]) ==> IdOf(s.threads[i]) != IdOf(s.threads[j]))
            && RowsOk(s.sh)
  {
    Reachable(n, es, c);
    CountBound(Run(n, es, c).threads, Holding);
  }

  /** Until the startup barrier has been passed twice, some thread can go on, and nobody issues a request. */
  lemma StartupGoesOn(n: nat, es: seq<Event>, c: Config)
    requires n > 0 && Run(n, es, c).round < 2
    ensures var s := Run(n, es, c);
            && |s.threads| == n && s.sh.startedReqs == 0
            && exists i :: 0 <= i < n && (s.threads[i].Blocked? ==> s.threads[i].round < s.round)
  {
    Reachable(n, es, c);
    SomeThreadFree(Run(n, es, c));
  }

  lemma SomeThreadFree(s: State)
    requires StartupOk(s) && s.round < 2 && |s.threads| > 0
    ensures exists i :: 0 <= i < |s.threads| && (s.threads[i].Blocked? ==> s.threads[i].round < s.round)
  {
    var p := if s.round == 0 then IsBlocked0 else IsBlocked1;
    assert forall i :: 0 <= i < |s.threads| ==> InRound(s.threads[i], s.round);
    if forall i :: 0 <= i < |s.threads| ==> p(s.threads[i]) {
      AllCounted(s.threads, p);
    } else {
      var i :| 0 <= i < |s.threads| && !p(s.threads[i]);
    }
  }

  lemma {:induction false} AllCounted(ts: seq<ThreadAt>, p: ThreadAt -> bool)
    requires forall i :: 0 <= i < |ts| ==> p(ts[i])
    ensures Count(ts, p) == |ts|
  {
    if |ts| > 0 {
      AllCounted(ts[..|ts| - 1], p);
    }
  }

  /** One thread, and a clock that stands still from its startup to the end of its first service. */
  const STANDING := [Event(0, 5, 0), Event(0, 5, 0), Event(0, 5, 0), Event(0, 5, 0),
                     Event(0, 5, 0), Event(0, 5, 0), Event(0, 5, 0), Event(0, 5, 0)]

  lemma Extend(k: nat, c: Config)
    requires k < |STANDING|
    ensures Run(1, STANDING[..k + 1], c) == Step(Run(1, STANDING[..k], c), Event(0, 5, 0), c)
  {
    assert STANDING[..k + 1][..k] == STANDING[..k];
  }

  lemma StandingStarted(c: Config)
    ensures Run(1, STANDING[..4], c)
         == Initial(1).(threads := [Issuing], round := 2, sh := SetUp(FRESH, 5), now := 5)
  {
    assert STANDING[..0] == [] && Run(1, STANDING[..0], c) == Initial(1);
    hide Run, STANDING;
    assert Initial(1).threads == [Calling];
    StandingLength();
    Extend(0, c);
    Extend(1, c);
    Extend(2, c);
    Extend(3, c);
  }

  lemma StandingLength()
    ensures |STANDING| == 8 && STANDING[..8] == STANDING
  {}

  /** A run in which the assertion on the service time fails. */
  lemma StandingClockFails(c: Config)
    ensures Run(1, STANDING, c).failed && Stalled(1, STANDING, c)
  {
    FailsIffStalled(1, STANDING, c);
    hide Run, STANDING, Stalled;
    StandingStarted(c);
    StandingLength();
    Extend(4, c);
    Extend(5, c);
    Extend(6, c);
    assert Run(1, STANDING[..7], c).threads == [Serving(0, 5)];
    Extend(7, c);
  }
}
