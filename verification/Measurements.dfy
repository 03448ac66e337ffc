/**
 What the samples of the integrated server mean (harness/client.cpp,
 harness/tbench_server_integrated.cpp): a log of clock readings kept beside every
 run of `Threads`, and the three time vectors as differences of these readings.
 */
module Measurements {
  import opened Ledger
  import opened Threads

  /** A request by its readings: the gap drawn for it, the first look at the clock, its service and its end. */
  datatype Times = Times(gap: nat, read: nat, begin: nat, end: nat, finish: nat)

  /** By request id; `epoch` is when the arrival process was set up, `sampled` the ids finished in the measured region. */
  datatype Log = Log(epoch: nat, reqs: seq<Times>, sampled: seq<nat>)

  function Put(l: Log, id: nat, t: Times): Log {
    if id < |l.reqs| then l.(reqs := l.reqs[id := t]) else l
  }

  function Get(l: Log, id: nat): Times {
    if id < |l.reqs| then l.reqs[id] else Times(0, 0, 0, 0, 0)
  }

  /** What is noted of a step: only what its thread does and what it reads. */
  function Note(l: Log, s: State, e: Event, c: Config): Log {
    if !Enabled(s, e) then l
    else
      match s.threads[e.thread]
      case SettingUp => if s.sh.hasDist then l else l.(epoch := e.clock)
      case Issuing => l.(reqs := l.reqs + [Times(e.gap, 0, 0, 0, 0)])
      case Checking(id, _) => Put(l, id, Get(l, id).(read := e.clock))
      case Started(id) => Put(l, id, Get(l, id).(begin := e.clock))
      case Serving(id, _) => Put(l, id, Get(l, id).(end := e.clock))
      case Finishing(id, _) =>
        var m := Put(l, id, Get(l, id).(finish := e.clock));
        if s.sh.status.Roi? && !Step(s, e, c).failed then m.(sampled := m.sampled + [id]) else m
      case Counting => if StartsRoi(s.sh, c) && !Step(s, e, c).failed then l.(sampled := []) else l
      case _ => l
  }

  function Notes(n: nat, es: seq<Event>, c: Config): Log {
    if |es| == 0 then Log(0, [], [])
    else Note(Notes(n, es[..|es| - 1], c), Run(n, es[..|es| - 1], c), es[|es| - 1], c)
  }

  /** When request k - 1 is generated: the gaps up to its own, from the epoch on. */
  function Arrival(l: Log, k: nat): nat
    requires k <= |l.reqs|
  {
    if k == 0 then l.epoch else Arrival(l, k - 1) + l.reqs[k - 1].gap
  }

  /** A service may begin: the request has been generated, and a thread that had to sleep has slept its minimum. */
  predicate Due(l: Log, id: nat, clock: nat, c: Config)
    requires id < |l.reqs|
  {
    clock >= Arrival(l, id + 1) && (l.reqs[id].read < Arrival(l, id + 1) ==> clock >= l.reqs[id].read + c.minSleepNs)
  }

  predicate NotedOk(l: Log, now: nat, t: ThreadAt, c: Config) {
    Holding(t) ==>
      && t.id < |l.reqs|
      && match t
         case Sleeping(id, until) => Due(l, id, until, c)
         case Started(id) => Due(l, id, now, c)
         case Serving(id, start) => start == l.reqs[id].begin <= now && Due(l, id, start, c)
         case Finishing(id, svc) =>
           && svc == l.reqs[id].end - l.reqs[id].begin
           && l.reqs[id].begin < l.reqs[id].end <= now && Due(l, id, l.reqs[id].begin, c)
         case _ => true
  }

  /** Row k is about request `sampled[k]`. */
  ghost predicate RowOk(l: Log, sh: Shared, k: nat, c: Config)
    requires k < |l.sampled| == |sh.queueTimes| == |sh.svcTimes| == |sh.sjrnTimes|
  {
    var id := l.sampled[k];
    && id < |l.reqs| && id !in sh.inFlight
    && sh.svcTimes[k] == l.reqs[id].end - l.reqs[id].begin
    && sh.sjrnTimes[k] == l.reqs[id].finish - Arrival(l, id + 1)
    && sh.queueTimes[k] == sh.sjrnTimes[k] - sh.svcTimes[k]
    && Due(l, id, l.reqs[id].begin, c) && l.reqs[id].begin < l.reqs[id].end <= l.reqs[id].finish
  }

  ghost predicate RowsNoted(l: Log, sh: Shared, c: Config) {
    && |l.sampled| == |sh.queueTimes| == |sh.svcTimes| == |sh.sjrnTimes|
    && (forall k :: 0 <= k < |l.sampled| ==> RowOk(l, sh, k, c))
    && forall j, k :: 0 <= j < k < |l.sampled| ==> l.sampled[j] != l.sampled[k]
  }

  ghost predicate ArrivalsNoted(l: Log, sh: Shared) {
    && |l.reqs| == sh.startedReqs && sh.lastArrival == Arrival(l, |l.reqs|)
    && forall id | id in sh.inFlight :: id < |l.reqs| && sh.inFlight[id] == Arrival(l, id + 1)
  }

  ghost predicate Noted(l: Log, s: State, c: Config) {
    && ArrivalsNoted(l, s.sh)
    && (forall i :: 0 <= i < |s.threads| ==> NotedOk(l, s.now, s.threads[i], c))
    && RowsNoted(l, s.sh, c)
  }

  // Frames

  /** Arrivals depend on the epoch and the gaps only. */
  lemma {:induction false} SameArrivals(l: Log, m: Log, k: nat)
    requires m.epoch == l.epoch && k <= |l.reqs| && k <= |m.reqs|
    requires forall i :: 0 <= i < k ==> m.reqs[i].gap == l.reqs[i].gap
    ensures Arrival(m, k) == Arrival(l, k)
  {
    if k > 0 {
      SameArrivals(l, m, k - 1);
    }
  }

  /** A reading noted for one request changes nothing for the others. */
  predicate Differs(l: Log, m: Log, id: nat) {
    && m.epoch == l.epoch && |l.reqs| <= |m.reqs|
    && (forall i :: 0 <= i < |l.reqs| ==> m.reqs[i].gap == l.reqs[i].gap)
    && (forall i :: 0 <= i < |l.reqs| && i != id ==> m.reqs[i] == l.reqs[i])
  }

  lemma OtherThread(l: Log, m: Log, id: nat, now: nat, now': nat, t: ThreadAt, c: Config)
    requires Differs(l, m, id) && NotedOk(l, now, t, c) && now <= now' && (Holding(t) ==> t.id != id)
    ensures NotedOk(m, now', t, c)
  {
    if Holding(t) {
      SameArrivals(l, m, t.id + 1);
    }
  }

  lemma OtherRow(l: Log, m: Log, id: nat, sh: Shared, sh': Shared, k: nat, c: Config)
    requires Differs(l, m, id) && RowsNoted(l, sh, c) && k < |l.sampled|
    requires k < |m.sampled| == |sh'.queueTimes| == |sh'.svcTimes| == |sh'.sjrnTimes| && m.sampled[k] == l.sampled[k] != id
    requires sh'.queueTimes[k] == sh.queueTimes[k] && sh'.svcTimes[k] == sh.svcTimes[k] && sh'.sjrnTimes[k] == sh.sjrnTimes[k]
    requires forall i | i in sh'.inFlight :: i in sh.inFlight || i >= |l.reqs|
    ensures RowOk(m, sh', k, c)
  {
    assert RowOk(l, sh, k, c);
    SameArrivals(l, m, l.sampled[k] + 1);
  }

  lemma SameRows(l: Log, m: Log, id: nat, sh: Shared, sh': Shared, c: Config)
    requires Differs(l, m, id) && RowsNoted(l, sh, c) && m.sampled == l.sampled && id !in l.sampled
    requires sh'.queueTimes == sh.queueTimes && sh'.svcTimes == sh.svcTimes && sh'.sjrnTimes == sh.sjrnTimes
    requires forall i | i in sh'.inFlight :: i in sh.inFlight || i >= |l.reqs|
    ensures RowsNoted(m, sh', c)
  {
    forall k | 0 <= k < |m.sampled| ensures RowOk(m, sh', k, c) {
      OtherRow(l, m, id, sh, sh', k, c);
    }
  }

  lemma SameInFlight(l: Log, m: Log, id: nat, sh: Shared)
    requires Differs(l, m, id) && ArrivalsNoted(l, sh) && |m.reqs| == |l.reqs|
    ensures ArrivalsNoted(m, sh)
  {
    SameArrivals(l, m, |l.reqs|);
    forall i | i in sh.inFlight ensures i < |m.reqs| && sh.inFlight[i] == Arrival(m, i + 1) {
      SameArrivals(l, m, i + 1);
    }
  }

  lemma NotSampled(l: Log, s: State, id: nat, c: Config)
    requires Noted(l, s, c) && id in s.sh.inFlight
    ensures id !in l.sampled
  {
    forall k | 0 <= k < |l.sampled| ensures l.sampled[k] != id {
      assert RowOk(l, s.sh, k, c);
    }
  }

  /** The other threads, after thread i has moved. */
  lemma OtherThreads(l: Log, m: Log, s: State, i: nat, id: nat, ts: seq<ThreadAt>, now: nat, c: Config)
    requires Noted(l, s, c) && LedgerOk(s) && i < |s.threads| == |ts| && ts == s.threads[i := ts[i]]
    requires Differs(l, m, id) && s.now <= now && NotedOk(m, now, ts[i], c)
    requires id >= |l.reqs| || (Holding(s.threads[i]) && s.threads[i].id == id)
    ensures forall j :: 0 <= j < |ts| ==> NotedOk(m, now, ts[j], c)
  {
    forall j | 0 <= j < |ts| ensures NotedOk(m, now, ts[j], c) {
      if j != i {
        assert NotedOk(l, s.now, s.threads[j], c);
        OtherThread(l, m, id, s.now, now, s.threads[j], c);
      }
    }
  }

  // Steps

  lemma NoteDiffers(l: Log, s: State, e: Event, c: Config)
    requires Enabled(s, e) && Holding(s.threads[e.thread]) && !s.threads[e.thread].Finishing?
    ensures var i, m, t := e.thread, Note(l, s, e, c), Step(s, e, c);
            && Differs(l, m, s.threads[i].id) && |m.reqs| == |l.reqs| && m.sampled == l.sampled
            && t.sh == s.sh && t.now >= s.now && |t.threads| == |s.threads| && t.threads == s.threads[i := t.threads[i]]
  {
    hide StartsRoi;
  }

  /** What a thread that holds a request notes is right for itself. */
  lemma OwnNoted(l: Log, s: State, e: Event, c: Config)
    requires Noted(l, s, c) && LedgerOk(s) && Enabled(s, e)
    requires Holding(s.threads[e.thread]) && !s.threads[e.thread].Finishing?
    ensures |Step(s, e, c).threads| == |s.threads|
    ensures NotedOk(Note(l, s, e, c), Step(s, e, c).now, Step(s, e, c).threads[e.thread], c)
  {
    var i, m := e.thread, Note(l, s, e, c);
    var id := s.threads[i].id;
    assert NotedOk(l, s.now, s.threads[i], c) && HoldsOk(s.sh, s.now, s.threads[i]);
    assert s.sh.inFlight[id] == Arrival(l, id + 1);
    NoteDiffers(l, s, e, c);
    SameArrivals(l, m, id + 1);
    hide Differs, LedgerOk, RowsNoted, ArrivalsNoted, Arrival, SetUp, Issue, Finish, Counted;
  }

  lemma HolderNoted(l: Log, s: State, e: Event, c: Config)
    requires Noted(l, s, c) && LedgerOk(s) && Enabled(s, e)
    requires Holding(s.threads[e.thread]) && !s.threads[e.thread].Finishing?
    ensures Noted(Note(l, s, e, c), Step(s, e, c), c)
  {
    var i, m, t := e.thread, Note(l, s, e, c), Step(s, e, c);
    var id := s.threads[i].id;
    OwnNoted(l, s, e, c);
    NoteDiffers(l, s, e, c);
    assert HoldsOk(s.sh, s.now, s.threads[i]);
    NotSampled(l, s, id, c);
    hide Step, Note, LedgerOk, HoldsOk, NotedOk;
    SameInFlight(l, m, id, s.sh);
    SameRows(l, m, id, s.sh, t.sh, c);
    OtherThreads(l, m, s, i, id, t.threads, t.now, c);
  }

  /** The row that a finished request adds. */
  lemma NewRow(l: Log, m: Log, s: State, e: Event, c: Config)
    requires Noted(l, s, c) && LedgerOk(s) && Enabled(s, e) && s.threads[e.thread].Finishing? && s.sh.status.Roi?
    requires !Step(s, e, c).failed && m == Note(l, s, e, c)
    ensures RowsNoted(m, Step(s, e, c).sh, c)
  {
    var id, sh := s.threads[e.thread].id, Step(s, e, c).sh;
    assert NotedOk(l, s.now, s.threads[e.thread], c) && HoldsOk(s.sh, s.now, s.threads[e.thread]);
    NotSampled(l, s, id, c);
    hide LedgerOk, HoldsOk;
    assert Differs(l, m, id) && m.sampled == l.sampled + [id];
    assert s.sh.inFlight[id] == Arrival(l, id + 1);
    SameArrivals(l, m, id + 1);
    forall k | 0 <= k < |m.sampled| ensures RowOk(m, sh, k, c) {
      if k < |l.sampled| {
        OtherRow(l, m, id, s.sh, sh, k, c);
      }
    }
  }

  lemma FinishNoted(l: Log, s: State, e: Event, c: Config)
    requires Noted(l, s, c) && LedgerOk(s) && Enabled(s, e) && s.threads[e.thread].Finishing?
    ensures Noted(Note(l, s, e, c), Step(s, e, c), c)
  {
    var i, m, t := e.thread, Note(l, s, e, c), Step(s, e, c);
    var id := s.threads[i].id;
    assert NotedOk(l, s.now, s.threads[i], c) && HoldsOk(s.sh, s.now, s.threads[i]);
    NotSampled(l, s, id, c);
    assert Differs(l, m, id) && |m.reqs| == |l.reqs| && t.threads == s.threads[i := t.threads[i]];
    SameArrivals(l, m, id + 1);
    if s.sh.status.Roi? && !t.failed {
      NewRow(l, m, s, e, c);
    } else {
      SameRows(l, m, id, s.sh, t.sh, c);
    }
    SameInFlight(l, m, id, s.sh);
    assert NotedOk(m, t.now, t.threads[i], c);
    hide LedgerOk, HoldsOk, RowsNoted, NotedOk;
    OtherThreads(l, m, s, i, id, t.threads, t.now, c);
  }

  /** A new request: its id is the next position in the log. */
  lemma IssueNoted(l: Log, s: State, e: Event, c: Config)
    requires Noted(l, s, c) && LedgerOk(s) && Enabled(s, e) && s.threads[e.thread].Issuing?
    ensures Noted(Note(l, s, e, c), Step(s, e, c), c)
  {
    var i, m, t := e.thread, Note(l, s, e, c), Step(s, e, c);
    var id := |l.reqs|;
    assert Differs(l, m, id);
    SameArrivals(l, m, id);
    forall k | k in t.sh.inFlight ensures k < |m.reqs| && t.sh.inFlight[k] == Arrival(m, k + 1) {
      if k != id {
        SameArrivals(l, m, k + 1);
      }
    }
    assert id !in l.sampled by {
      forall k | 0 <= k < |l.sampled| ensures l.sampled[k] != id {
        assert RowOk(l, s.sh, k, c);
      }
    }
    SameRows(l, m, id, s.sh, t.sh, c);
    hide RowsNoted;
    OtherThreads(l, m, s, i, id, t.threads, t.now, c);
  }

  /** A step that notes nothing and changes no request. */
  lemma QuietNoted(l: Log, s: State, t: State, i: nat, c: Config)
    requires Noted(l, s, c) && LedgerOk(s) && i < |s.threads| == |t.threads| && t.threads == s.threads[i := t.threads[i]]
    requires !Holding(t.threads[i]) && t.now >= s.now
    requires t.sh.inFlight == s.sh.inFlight && t.sh.startedReqs == s.sh.startedReqs && t.sh.lastArrival == s.sh.lastArrival
    requires t.sh.queueTimes == s.sh.queueTimes && t.sh.svcTimes == s.sh.svcTimes && t.sh.sjrnTimes == s.sh.sjrnTimes
    ensures Noted(l, t, c)
  {
    assert RowsNoted(l, t.sh, c) by {
      forall k | 0 <= k < |l.sampled| ensures RowOk(l, t.sh, k, c) {
        assert RowOk(l, s.sh, k, c);
      }
    }
    hide RowsNoted, LedgerOk;
    forall j | 0 <= j < |t.threads| ensures NotedOk(l, t.now, t.threads[j], c) {
      if j != i {
        assert NotedOk(l, s.now, s.threads[j], c);
      }
    }
  }

  lemma SampledIssued(l: Log, sh: Shared, c: Config)
    requires RowsNoted(l, sh, c)
    ensures forall k :: 0 <= k < |l.sampled| ==> l.sampled[k] < |l.reqs|
    ensures |l.reqs| == 0 ==> l.sampled == []
  {
    forall k | 0 <= k < |l.sampled| ensures l.sampled[k] < |l.reqs| {
      assert RowOk(l, sh, k, c);
    }
    assert |l.sampled| > 0 ==> l.sampled[0] < |l.reqs|;
  }

  /** The first set-up: there is no request yet. */
  lemma SetUpNoted(l: Log, s: State, e: Event, c: Config)
    requires Noted(l, s, c) && StartupOk(s) && Enabled(s, e) && s.threads[e.thread].SettingUp? && !s.sh.hasDist
    ensures Noted(Note(l, s, e, c), Step(s, e, c), c)
  {
    var m, t := Note(l, s, e, c), Step(s, e, c);
    assert |l.reqs| == 0 && t.sh.inFlight == s.sh.inFlight && m.reqs == l.reqs;
    SampledIssued(l, s.sh, c);
    hide StartupOk;
    forall j | 0 <= j < |t.threads| ensures NotedOk(m, t.now, t.threads[j], c) {
      if j != e.thread {
        assert NotedOk(l, s.now, s.threads[j], c);
      }
    }
  }

  /** The measured region begins: the rows are dropped. */
  lemma RegionNoted(l: Log, s: State, e: Event, c: Config)
    requires Noted(l, s, c) && Enabled(s, e) && s.threads[e.thread].Counting? && StartsRoi(s.sh, c) && !Step(s, e, c).failed
    ensures Noted(Note(l, s, e, c), Step(s, e, c), c)
  {
    var m, t := Note(l, s, e, c), Step(s, e, c);
    SameArrivals(l, m, |l.reqs|);
    assert Differs(l, m, |l.reqs|);
    SameInFlight(l, m, |l.reqs|, s.sh);
    hide RowOk;
    forall j | 0 <= j < |t.threads| ensures NotedOk(m, t.now, t.threads[j], c) {
      if j != e.thread {
        assert NotedOk(l, s.now, s.threads[j], c);
        if Holding(s.threads[j]) {
          SameArrivals(l, m, s.threads[j].id + 1);
        }
      }
    }
  }

  lemma OtherNoted(l: Log, s: State, e: Event, c: Config)
    requires Noted(l, s, c) && StartupOk(s) && LedgerOk(s) && Enabled(s, e)
    requires !Holding(s.threads[e.thread]) && !s.threads[e.thread].Issuing?
    ensures Noted(Note(l, s, e, c), Step(s, e, c), c)
  {
    hide Noted, StartupOk, LedgerOk;
    if s.threads[e.thread].SettingUp? && !s.sh.hasDist {
      SetUpNoted(l, s, e, c);
    } else if s.threads[e.thread].Counting? && StartsRoi(s.sh, c) && !Step(s, e, c).failed {
      RegionNoted(l, s, e, c);
    } else {
      QuietNoted(l, s, Step(s, e, c), e.thread, c);
    }
  }

  lemma {:induction false} NotedReachable(n: nat, es: seq<Event>, c: Config)
    ensures Noted(Notes(n, es, c), Run(n, es, c), c)
  {
    if |es| > 0 {
      var s, e, l := Run(n, es[..|es| - 1], c), es[|es| - 1], Notes(n, es[..|es| - 1], c);
      NotedReachable(n, es[..|es| - 1], c);
      Reachable(n, es[..|es| - 1], c);
      hide Noted, StartupOk, LedgerOk, RegionOk, RowsOk;
      if Enabled(s, e) {
        if s.threads[e.thread].Finishing? {
          FinishNoted(l, s, e, c);
        } else if Holding(s.threads[e.thread]) {
          HolderNoted(l, s, e, c);
        } else if s.threads[e.thread].Issuing? {
          IssueNoted(l, s, e, c);
        } else {
          OtherNoted(l, s, e, c);
        }
      }
    }
  }

  /**
   Every sample, in every interleaving, is one finished request of its own. Its
   service time is the clock at the end of its service less the clock at the
   beginning, its sojourn time the clock at its end less the time it was generated,
   and its queue time the rest; and its service did not begin before it was due.
   */
  lemma SamplesAreTimes(n: nat, es: seq<Event>, c: Config, j: nat, k: nat)
    requires j <= k < |Run(n, es, c).sh.sjrnTimes|
    ensures var l, sh := Notes(n, es, c), Run(n, es, c).sh;
            && |l.sampled| == |sh.queueTimes| == |sh.svcTimes| == |sh.sjrnTimes| && |l.reqs| == sh.startedReqs
            && (j < k ==> l.sampled[j] != l.sampled[k])
            && l.sampled[k] < |l.reqs| && l.sampled[k] !in sh.inFlight
            && var r, arrival := l.reqs[l.sampled[k]], Arrival(l, l.sampled[k] + 1);
            && sh.svcTimes[k] == r.end - r.begin > 0
            && sh.sjrnTimes[k] == r.finish - arrival
            && sh.queueTimes[k] == (r.finish - arrival) - (r.end - r.begin) >= 0
            && arrival <= r.begin < r.end <= r.finish
            && (r.read < arrival ==> r.begin >= r.read + c.minSleepNs)
  {
    NotedReachable(n, es, c);
    var l, sh := Notes(n, es, c), Run(n, es, c).sh;
    hide Run, Notes, NotedOk, Arrival;
    assert RowOk(l, sh, k, c);
  }

  /** When requests are generated depends on the gaps drawn alone, not on how long any service takes. */
  lemma ArrivalsAreOpen(n: nat, es: seq<Event>, c: Config)
    ensures var l, sh := Notes(n, es, c), Run(n, es, c).sh;
            && |l.reqs| == sh.startedReqs && sh.lastArrival == Arrival(l, |l.reqs|)
            && forall id | id in sh.inFlight :: id < |l.reqs| && sh.inFlight[id] == Arrival(l, id + 1)
  {
    NotedReachable(n, es, c);
  }
}
