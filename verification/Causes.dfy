/**
 An overwritten stop request (`LostStop`) with the choices made by registered
 Primaries: a sample that changes the list is all that it takes to disturb a
 running `twopa`, or to have a request return unserved.
 */
module Causes {
  import opened Controller
  import opened Requests
  import opened Selection
  import opened Sets
  import opened System
  import B = Harvester
  import H = Handshake
  import L = LostStop

  /** A sample that leads to another list than the one published. */
  ghost predicate Changes(b: B.State, active: set<int>, dt: seq<nat>, lowTic: int)
    requires B.Shaped(b)
  {
    && !b.evaluated && active != b.idleMask && |dt| >= |b.ctrs|
    && var t := B.Evaluated(b, active, dt, lowTic);
       t.triggered && Writable(t) && List(t) != b.published
  }

  /** Steps that register nothing and leave the Listener alone. */
  predicate Quiet(es: seq<Event>) {
    forall e | e in es :: !e.Register? && (e.Hand? ==> !e.e.Listener?)
  }

  function Repeated(n: nat): (es: seq<Event>)
    ensures |es| == n && forall e | e in es :: e == Listed
  {
    if n == 0 then [] else Repeated(n - 1) + [Listed]
  }

  lemma {:induction false} AfterConcat(s: State, a: seq<Event>, b: seq<Event>, lowTic: int)
    requires B.Shaped(s.b)
    ensures After(s, a + b, lowTic) == After(After(s, a, lowTic), b, lowTic)
  {
    if |b| > 0 {
      AfterConcat(s, a, b[..|b| - 1], lowTic);
      assert (a + b)[..|a + b| - 1] == a + b[..|b| - 1];
    } else {
      assert a + b == a;
    }
  }

  lemma AfterOne(s: State, e: Event, lowTic: int)
    requires B.Shaped(s.b)
    ensures After(s, [e], lowTic) == Step(s, e, lowTic)
  {
    assert [e][..0] == [];
  }

  /** A scan written up to position k. */
  function Written(s: State, k: nat): State
    requires B.Shaped(s.b) && k <= |List(s.b)| && k <= |s.h.slots|
  {
    s.(h := s.h.(slots := List(s.b)[..k] + s.h.slots[k..], balancer := H.Scan(k, s.b.published)))
  }

  lemma OneMore(list: seq<int>, slots: seq<int>, k: nat)
    requires 0 < k <= |list| && k <= |slots|
    ensures (list[..k - 1] + slots[k - 1..])[k - 1 := list[k - 1]] == list[..k] + slots[k..]
  {}

  lemma {:induction false} ScanWrites(s: State, k: nat, lowTic: int)
    requires Linked(s) && Writable(s.b) && s.h.balancer == H.Scan(0, s.b.published) && k <= |List(s.b)|
    ensures After(s, Repeated(k), lowTic) == Written(s, k) && Linked(Written(s, k))
  {
    hide B.ListUpTo, B.Allocated, H.Step;
    if k > 0 {
      hide Linked, Writable, Step;
      ScanWrites(s, k - 1, lowTic);
      TakeListed(Written(s, k - 1), lowTic);
      assert Repeated(k)[..k - 1] == Repeated(k - 1);
      OneMore(List(s.b), s.h.slots, k);
    } else {
      assert [] + s.h.slots[0..] == s.h.slots;
    }
  }

  /** The scan of a changed list ends in a request for it. */
  lemma ScanAsks(s: State, lowTic: int)
    requires Linked(s) && Writable(s.b) && s.h.balancer == H.Scan(0, s.b.published) && List(s.b) != s.b.published
    ensures var list, t := List(s.b), After(s, Repeated(|List(s.b)| + 1), lowTic);
            t.h == s.h.(slots := t.h.slots, num := |list|,
                        balancer := H.WaitPids(Request(ActionFor(list, |s.b.published|), list)))
            && |t.h.slots| == SLOTS && t.h.slots[..|list|] == list
  {
    hide B.ListUpTo, B.Allocated, H.Step, Step;
    var list := List(s.b);
    ScanWrites(s, |list|, lowTic);
    ListComplete(Written(s, |list|), lowTic);
    assert Repeated(|list| + 1)[..|list|] == Repeated(|list|);
    assert Written(s, |list|).h.slots[..|list|] == list;
  }

  function ToList(b: B.State, active: set<int>, dt: seq<nat>, lowTic: int): seq<Event>
    requires B.Shaped(b) && |dt| >= |b.ctrs|
  {
    [Hand(H.Balancer(H.Skip)), Sampled(active, dt)] + Repeated(|List(B.Evaluated(b, active, dt, lowTic))| + 1)
  }

  /** From the head of the loop, the sample publishes the changed list and asks for it. */
  lemma SampleAsks(s: State, active: set<int>, dt: seq<nat>, lowTic: int)
    requires Linked(s) && s.h.balancer.HeadAgain? && s.h.control == 1 && Changes(s.b, active, dt, lowTic)
    ensures var t, list := After(s, ToList(s.b, active, dt, lowTic), lowTic), List(B.Evaluated(s.b, active, dt, lowTic));
            t.h == s.h.(slots := t.h.slots, num := |list|,
                        balancer := H.WaitPids(Request(ActionFor(list, |s.b.published|), list)))
            && |t.h.slots| == SLOTS && t.h.slots[..|list|] == list
  {
    var u := s.(h := s.h.(balancer := H.Sample));
    var e := B.Evaluated(s.b, active, dt, lowTic);
    var v := State(s.h.(balancer := H.Scan(0, s.b.published)), e);
    assert Step(s, Hand(H.Balancer(H.Skip)), lowTic) == u;
    ChoiceAtSample(u);
    EvaluatedFrame(s.b, active, dt, lowTic);
    hide B.Evaluated, B.ListUpTo, Choose, H.Step;
    assert Step(u, Sampled(active, dt), lowTic) == v;
    SampleLinked(u, active, dt, lowTic);
    hide Linked, Step;
    var rest := Repeated(|List(e)| + 1);
    AfterConcat(s, [Hand(H.Balancer(H.Skip)), Sampled(active, dt)], rest, lowTic);
    AfterConcat(s, [Hand(H.Balancer(H.Skip))], [Sampled(active, dt)], lowTic);
    assert [Hand(H.Balancer(H.Skip))] + [Sampled(active, dt)] == [Hand(H.Balancer(H.Skip)), Sampled(active, dt)];
    AfterOne(s, Hand(H.Balancer(H.Skip)), lowTic);
    AfterOne(u, Sampled(active, dt), lowTic);
    ScanAsks(v, lowTic);
  }

  // After an overwritten stop

  function Served(s: State): seq<Event> {
    if s.h.monitor.Poll? then [Hand(H.Monitor)] else []
  }

  function ToHeadAgain(s: State): seq<Event> {
    if s.h.balancer.Head? then [Hand(H.Balancer(H.Skip))] else []
  }

  /** The Monitor and the Balancer's way to its sample do not concern the bookkeeping. */
  lemma LeadIn(s: State, monitor: seq<Event>, lowTic: int)
    requires Linked(s) && s.h.control == 1 && (s.h.balancer.Head? || s.h.balancer.HeadAgain?)
    requires forall e | e in monitor :: e == Hand(H.Monitor)
    ensures var t := After(s, monitor + ToHeadAgain(s), lowTic);
            && Linked(t) && t.b == s.b && t.h == s.h.(balancer := H.HeadAgain, monitor := t.h.monitor, served := t.h.served, needs := t.h.needs)
            && t.h.monitor == After(s, monitor, lowTic).h.monitor && t.h.needs == After(s, monitor, lowTic).h.needs
  {
    MonitorAlone(s, monitor, lowTic);
    AfterConcat(s, monitor, ToHeadAgain(s), lowTic);
    var u := After(s, monitor, lowTic);
    AfterOne(u, Hand(H.Balancer(H.Skip)), lowTic);
    HandLinked(u, H.Balancer(H.Skip), lowTic);
    assert After(u, [], lowTic) == u;
  }

  lemma MonitorShape(h: H.State)
    ensures var t := H.Step(h, H.Monitor, true); t == h.(monitor := t.monitor, served := t.served, needs := t.needs)
  {}

  lemma {:induction false} MonitorAlone(s: State, monitor: seq<Event>, lowTic: int)
    requires Linked(s) && forall e | e in monitor :: e == Hand(H.Monitor)
    ensures var t := After(s, monitor, lowTic);
            Linked(t) && t.b == s.b && t.h == s.h.(monitor := t.h.monitor, served := t.h.served, needs := t.h.needs)
  {
    hide Linked, H.Step, B.ListUpTo;
    if |monitor| > 0 {
      var n := |monitor| - 1;
      assert monitor[n] in monitor && forall e | e in monitor[..n] :: e in monitor;
      MonitorAlone(s, monitor[..n], lowTic);
      var u := After(s, monitor[..n], lowTic);
      MonitorShape(u.h);
      HandLinked(u, H.Monitor, lowTic);
    }
  }

  /**
   A stop overwritten with a request abandoned: any sample that changes the list
   goes on to change it under the `twopa` that serves that request.
   */
  lemma AbandonedDisturbs(s: State, active: set<int>, dt: seq<nat>, lowTic: int) returns (es: seq<Event>)
    requires Linked(s) && L.Guarded(s.h) && H.Overwrites(s.h, H.Listener(false)) && L.Abandoned(s.h)
    requires Changes(s.b, active, dt, lowTic)
    ensures Quiet(es) && !H.Stable(After(Step(s, Hand(H.Listener(false)), lowTic), es, lowTic).h)
  {
    var t := Step(s, Hand(H.Listener(false)), lowTic);
    HandLinked(s, H.Listener(false), lowTic);
    var serve := Served(t);
    assert After(t, [], lowTic) == t;
    AfterOne(t, Hand(H.Monitor), lowTic);
    LeadIn(t, serve, lowTic);
    var u := After(t, serve + ToHeadAgain(t), lowTic);
    assert u.h.monitor.Placing? && u.h.monitor.req.list == s.b.published;
    hide Linked, Changes, L.Guarded, L.Abandoned, H.Overwrites, Step, Served, ToHeadAgain;
    ChangesDiffers(u.b, active, dt, lowTic);
    AskedAt(u, active, dt, lowTic);
    es := serve + ToHeadAgain(t) + ToList(u.b, active, dt, lowTic);
    AfterConcat(t, serve + ToHeadAgain(t), ToList(u.b, active, dt, lowTic), lowTic);
    AllQuiet(t, u.b, active, dt, lowTic);
  }

  lemma ChangesDiffers(b: B.State, active: set<int>, dt: seq<nat>, lowTic: int)
    requires B.Shaped(b) && Changes(b, active, dt, lowTic)
    ensures |dt| >= |b.ctrs| && List(B.Evaluated(b, active, dt, lowTic)) != b.published
  {}

  lemma AskedAt(s: State, active: set<int>, dt: seq<nat>, lowTic: int)
    requires Linked(s) && s.h.balancer.HeadAgain? && s.h.control == 1 && Changes(s.b, active, dt, lowTic)
    ensures var t, list := After(s, ToList(s.b, active, dt, lowTic), lowTic).h, List(B.Evaluated(s.b, active, dt, lowTic));
            && t.monitor == s.h.monitor && t.num == |list| <= |t.slots| && t.slots[..t.num] == list
            && t.balancer.WaitPids? && t.balancer.req.action > 0 && t.updatingPids == s.h.updatingPids
  {
    SampleAsks(s, active, dt, lowTic);
    hide ToList, Changes, Linked, B.ListUpTo, B.Evaluated;
  }

  lemma AllQuiet(s: State, b: B.State, active: set<int>, dt: seq<nat>, lowTic: int)
    requires B.Shaped(b) && |dt| >= |b.ctrs|
    ensures Quiet(Served(s) + ToHeadAgain(s) + ToList(b, active, dt, lowTic))
  {
    hide B.ListUpTo, B.Evaluated;
  }

  /** The Monitor's steps up to where it clears the flag. */
  function Finished(s: State): seq<Event> {
    match s.h.monitor
    case Poll => [Hand(H.Monitor), Hand(H.Monitor)]
    case Placing(_) => [Hand(H.Monitor)]
    case Clearing(_) => []
  }

  lemma FinishedClears(s: State, lowTic: int)
    requires Linked(s) && s.h.needs > 0
    ensures After(s, Finished(s), lowTic).h.monitor.Clearing?
  {
    assert After(s, [], lowTic) == s;
    AfterOne(s, Hand(H.Monitor), lowTic);
    assert [Hand(H.Monitor), Hand(H.Monitor)][..1] == [Hand(H.Monitor)];
  }

  const LOST := [Hand(H.Balancer(H.Skip)), Hand(H.Balancer(H.Skip)), Hand(H.Monitor), Hand(H.Balancer(H.Skip))]

  lemma LostSteps(s: State, lowTic: int)
    requires B.Shaped(s.b) && s.h.balancer.WaitPids? && s.h.balancer.req.action > 0 && s.h.monitor.Clearing? && !s.h.updatingPids
    ensures L.Unserved(After(s, LOST, lowTic).h)
  {
    L.ClearedUnserved(s.h);
    hide L.Unserved;
    var a := Hand(H.Balancer(H.Skip));
    assert LOST[..3] == [a, a, Hand(H.Monitor)] && [a, a, Hand(H.Monitor)][..2] == [a, a] && [a, a][..1] == [a] && [a][..0] == [];
    var u := After(s, [a, a], lowTic);
    assert After(s, [a], lowTic) == Step(s, a, lowTic);
    assert u == Step(Step(s, a, lowTic), a, lowTic) && u.h.balancer.WaitDone?;
    assert After(s, [a, a, Hand(H.Monitor)], lowTic) == Step(u, Hand(H.Monitor), lowTic);
  }

  /**
   A stop overwritten with a request given up: any sample that changes the list
   goes on to a request that returns unserved.
   */
  lemma GivenUpLosesRequest(s: State, active: set<int>, dt: seq<nat>, lowTic: int) returns (es: seq<Event>)
    requires Linked(s) && H.Calm(s.h) && H.Overwrites(s.h, H.Listener(false)) && H.GivenUp(s.h)
    requires Changes(s.b, active, dt, lowTic)
    ensures Quiet(es) && L.Unserved(After(Step(s, Hand(H.Listener(false)), lowTic), es, lowTic).h)
  {
    var t := Step(s, Hand(H.Listener(false)), lowTic);
    HandLinked(s, H.Listener(false), lowTic);
    FinishedClears(t, lowTic);
    LeadIn(t, Finished(t), lowTic);
    var u := After(t, Finished(t) + ToHeadAgain(t), lowTic);
    assert u.h.monitor.Clearing? && !u.h.updatingPids;
    hide Linked, Changes, H.Calm, H.Overwrites, H.GivenUp, Step, Finished, ToHeadAgain, L.Unserved;
    ChangesDiffers(u.b, active, dt, lowTic);
    AskedAt(u, active, dt, lowTic);
    var list := ToList(u.b, active, dt, lowTic);
    LostSteps(After(u, list, lowTic), lowTic);
    es := Finished(t) + ToHeadAgain(t) + (list + LOST);
    AfterConcat(t, Finished(t) + ToHeadAgain(t), list + LOST, lowTic);
    AfterConcat(u, list, LOST, lowTic);
    AllQuietLost(t, u.b, active, dt, lowTic);
  }

  lemma AllQuietLost(s: State, b: B.State, active: set<int>, dt: seq<nat>, lowTic: int)
    requires B.Shaped(b) && |dt| >= |b.ctrs|
    ensures Quiet(Finished(s) + ToHeadAgain(s) + (ToList(b, active, dt, lowTic) + LOST))
  {
    hide B.ListUpTo, B.Evaluated;
  }

  // With one registered Primary

  /** One core, which need not be idle. */
  const PRIMARY := PrimaryCtr([6], 1.0, 0, 0, 1, 1, 0)

  /** Registered, then stopped: the first, empty request has been given up, and the Listener is about to overwrite the stop. */
  const STOPPED := [Register(PRIMARY), Hand(H.Listener(false)), Hand(H.Listener(false)), Hand(H.Signal),
                    Hand(H.Balancer(H.Skip)), Listed, Hand(H.Balancer(H.Skip)), Hand(H.Balancer(H.Skip)),
                    Hand(H.Balancer(H.Skip)), Hand(H.Balancer(H.Skip))]

  function Book(): B.State { B.State([PRIMARY], [INITIAL_INFO], {}, [], {}, false, false) }

  lemma Extend(k: nat)
    requires k < |STOPPED|
    ensures Run(STOPPED[..k + 1], 0) == Step(Run(STOPPED[..k], 0), STOPPED[k], 0)
  {
    assert STOPPED[..k + 1][..k] == STOPPED[..k];
  }

  lemma StoppedLength()
    ensures |STOPPED| == 10 && STOPPED[..10] == STOPPED && STOPPED[..0] == []
  {}

  lemma FirstHalf()
    ensures Run(STOPPED[..6], 0)
         == State(H.Initial().(control := -1, balancer := H.WaitPids(Request(EMPTY, [])), listener := H.Writing), Book())
  {
    StoppedLength();
    assert Run(STOPPED[..0], 0) == Initial();
    hide Run;
    Extend(0);
    Extend(1);
    Extend(2);
    Extend(3);
    Extend(4);
    assert H.Initial().slots[..0] == [];
    Extend(5);
  }

  lemma StoppedState()
    ensures Run(STOPPED, 0)
         == State(H.Initial().(control := -1, needs := EMPTY, balancer := H.Head, listener := H.Writing), Book())
  {
    hide Run;
    StoppedLength();
    FirstHalf();
    Extend(6);
    Extend(7);
    Extend(8);
    Extend(9);
  }

  /** With core 0 active, core 6 is idle and gets listed. */
  lemma PrimaryChanges()
    ensures Changes(Book(), {0}, [0], 0)
  {
    assert 0 in {0} && 0 !in Book().idleMask;
    PrimarySampled();
    OneSampled(Book(), {0}, 0, 0);
    hide EvaluatedCtr, EvaluatedInfo, Triggers, B.Evaluated;
    PrimaryListed(B.Evaluated(Book(), {0}, [0], 0));
  }

  /** A sample with one Primary registered. */
  lemma OneSampled(b: B.State, active: set<int>, dt: nat, lowTic: int)
    requires |b.ctrs| == |b.infos| == 1
    ensures var t := B.Evaluated(b, active, [dt], lowTic);
            && t.ctrs == [EvaluatedCtr(b.ctrs[0], b.infos[0], active, dt, lowTic)]
            && t.infos == [EvaluatedInfo(b.ctrs[0], b.infos[0], active, dt, lowTic)]
            && t.lastMask == b.lastMask && t.idleMask == active
            && (Triggers(b.ctrs[0], b.infos[0], active, dt, lowTic) ==> t.triggered)
  {
    hide EvaluatedCtr, EvaluatedInfo, Triggers;
    B.EvalAt(b.ctrs, b.infos, active, [dt], lowTic, 0);
    B.RebalanceIffWanted(b, active, [dt], lowTic);
    assert [dt][0] == dt;
  }

  /** The sample by the records of the one Primary: it asks for a rebalance, with one core to spare. */
  lemma PrimarySampled()
    ensures EvaluatedCtr(PRIMARY, INITIAL_INFO, {0}, 0, 0) == PRIMARY && Triggers(PRIMARY, INITIAL_INFO, {0}, 0, 0)
    ensures EvaluatedInfo(PRIMARY, INITIAL_INFO, {0}, 0, 0).spareCores == 1
  {
    assert CountIdle([6], {0}) == 1 by { assert [6][..0] == []; }
    hide CountIdle;
  }

  /** That core gets listed. */
  lemma PrimaryListed(t: B.State)
    requires t.ctrs == [PRIMARY] && |t.infos| == 1 && t.infos[0].spareCores == 1 && t.lastMask == {} && t.idleMask == {0}
    ensures Writable(t) && List(t) == [6]
  {
    assert Picks([6], 1, {}, {0}) == [6] by { assert [6][..0] == []; }
    hide Picks;
    assert B.ListUpTo(t, 0) == [] && B.ListUpTo(t, 1) == [6];
    assert Elems([6]) == {6};
  }

  lemma StoppedReady()
    ensures var s := Run(STOPPED, 0);
            && Linked(s) && H.Calm(s.h) && L.Guarded(s.h) && H.Overwrites(s.h, H.Listener(false)) && L.Abandoned(s.h)
            && s.b == Book() && B.RequestOk(B.START, PRIMARY, 0)
  {
    StoppedState();
    hide Run, STOPPED;
    assert H.Initial().slots[..0] == [];
    assert forall c | c in Elems(PRIMARY.cpuList) :: c == 6;
  }

  /** One Primary is enough, in a run from the start, for the list to change under `twopa`... */
  lemma OnePrimaryDisturbs() returns (es: seq<Event>)
    ensures Quiet(es) && !H.Stable(Run(STOPPED + [Hand(H.Listener(false))] + es, 0).h)
  {
    StoppedReady();
    PrimaryChanges();
    hide Linked, Changes, L.Guarded, H.Calm, L.Abandoned, H.Overwrites, Step, STOPPED, Book, H.Stable;
    es := AbandonedDisturbs(Run(STOPPED, 0), {0}, [0], 0);
    OnFromStopped(es);
  }

  /** ... and for a request to return unserved. */
  lemma OnePrimaryLosesRequest() returns (es: seq<Event>)
    ensures Quiet(es) && L.Unserved(Run(STOPPED + [Hand(H.Listener(false))] + es, 0).h)
  {
    StoppedReady();
    PrimaryChanges();
    assert H.GivenUp(Run(STOPPED, 0).h);
    hide Linked, Changes, L.Guarded, H.Calm, L.Abandoned, H.GivenUp, H.Overwrites, Step, STOPPED, Book, L.Unserved;
    es := GivenUpLosesRequest(Run(STOPPED, 0), {0}, [0], 0);
    OnFromStopped(es);
  }

  lemma OnFromStopped(es: seq<Event>)
    ensures Run(STOPPED + [Hand(H.Listener(false))] + es, 0)
         == After(Step(Run(STOPPED, 0), Hand(H.Listener(false)), 0), es, 0)
  {
    hide STOPPED, Step;
    AfterConcat(Initial(), STOPPED + [Hand(H.Listener(false))], es, 0);
    AfterConcat(Initial(), STOPPED, [Hand(H.Listener(false))], 0);
    AfterOne(Run(STOPPED, 0), Hand(H.Listener(false)), 0);
  }
}
