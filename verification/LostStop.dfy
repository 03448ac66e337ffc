/**
 The Listener reads the control word in one step and writes it in another
 (Listener/listener.cpp), so a stop request can be overwritten. What that can
 break, and exactly when.
 */
module LostStop {
  import opened Handshake
  import opened Requests

  /** A request was given up with its flag raised, and `twopa` has not finished with it. */
  predicate Abandoned(s: State) { GivenUp(s) && !s.monitor.Clearing? }

  // The list under a running `twopa`

  /** What keeps a running `twopa` undisturbed, whatever was overwritten before. */
  predicate Guarded(s: State) {
    && Shape(s)
    && (s.needs > 0 ==> Waiting(s.balancer) || Leaving(s) || s.monitor.Clearing?)
    && (s.needs > 0 && Waiting(s.balancer) ==> s.needs == s.balancer.req.action)
    && (s.monitor.Placing? ==> s.needs > 0 && s.num <= |s.slots| && s.monitor.req == Current(s, s.needs))
  }

  lemma GuardedScan(s: State, c: Choice)
    requires Guarded(s) && (s.balancer.Scan? || s.balancer.FirstScan?)
    ensures Guarded(BalancerStep(s, c))
  {}

  lemma GuardedAsk(s: State, c: Choice)
    requires Guarded(s) && Asking(s.balancer)
    ensures Guarded(BalancerStep(s, c))
  {}

  lemma GuardedLoop(s: State, c: Choice)
    requires Guarded(s) && !Asking(s.balancer) && !s.balancer.Scan? && !s.balancer.FirstScan?
    ensures Guarded(BalancerStep(s, c))
  {}

  lemma GuardedMonitor(s: State)
    requires Guarded(s)
    ensures Guarded(MonitorStep(s))
  {}

  lemma GuardedListener(s: State, another: bool, split: bool)
    requires Guarded(s) && !(Overwrites(s, Listener(another)) && Abandoned(s))
    ensures Guarded(ListenerStep(s, another, split))
  {}

  lemma GuardedStep(s: State, e: Event, split: bool)
    requires Guarded(s) && !(Overwrites(s, e) && Abandoned(s))
    ensures Guarded(Step(s, e, split))
  {
    hide BalancerStep, MonitorStep, ListenerStep;
    match e {
      case Balancer(c) =>
        hide Guarded;
        if s.balancer.Scan? || s.balancer.FirstScan? {
          GuardedScan(s, c);
        } else if Asking(s.balancer) {
          GuardedAsk(s, c);
        } else {
          GuardedLoop(s, c);
        }
      case Monitor => GuardedMonitor(s);
      case Listener(another) => GuardedListener(s, another, split);
      case Signal =>
    }
  }

  lemma {:induction false} GuardedAfter(s: State, es: seq<Event>, split: bool)
    requires Guarded(s) && NoOverwriteIn(Abandoned, s, es, split)
    ensures Guarded(After(s, es, split))
  {
    hide Guarded, Step;
    if |es| > 0 {
      var t := After(s, es[..|es| - 1], split);
      GuardedAfter(s, es[..|es| - 1], split);
      assert Abandoned(t) == (GivenUp(t) && !t.monitor.Clearing?);
      GuardedStep(t, es[|es| - 1], split);
    }
  }

  lemma GuardedIsStable(s: State)
    requires Guarded(s)
    ensures Stable(s)
  {}

  /** A run in which `twopa` is disturbed has overwritten a stop request with a request abandoned. */
  lemma StableUnlessAbandoned(es: seq<Event>, split: bool)
    requires NoOverwriteIn(Abandoned, Initial(), es, split)
    ensures Stable(Run(es, split))
  {
    GuardedAfter(Initial(), es, split);
  }

  // Going on after an overwritten stop

  lemma AfterOne(s: State, e: Event, es: seq<Event>, split: bool)
    ensures After(s, [e] + es, split) == After(Step(s, e, split), es, split)
  {
    AfterConcat(s, [e], es, split);
    assert [e][..0] == [];
    assert After(s, [e][..0], split) == s;
  }

  /** What the Balancer does after its stop was overwritten: the next sample lists one core, and not the first listed now. */
  function NextRebalance(s: State): seq<Event>
    requires |s.slots| > 0
  {
    [Balancer(Skip), Balancer(Go), Balancer(Take(if s.slots[0] == 0 then 1 else 0)), Balancer(Go)]
  }

  lemma {:induction false} OthersOverwriteNothing(s: State, es: seq<Event>, split: bool)
    requires forall e | e in es :: !e.Listener?
    ensures NoOverwriteIn(Any, s, es, split)
  {
    if |es| > 0 {
      assert es[|es| - 1] in es;
      OthersOverwriteNothing(s, es[..|es| - 1], split);
    }
  }

  lemma BeginsScan(s: State)
    requires s.num <= |s.slots| && s.balancer.HeadAgain? && s.control == 1
    ensures Step(Step(s, Balancer(Skip), true), Balancer(Go), true) == s.(balancer := Scan(0, s.slots[..s.num]))
  {
    assert Step(s, Balancer(Skip), true) == s.(balancer := Sample);
  }

  lemma ListsOneCore(s: State, core: int)
    requires |s.slots| == SLOTS && s.balancer.Scan? && s.balancer.pos == 0 && 0 <= core < SLOTS
    requires s.balancer.before == [] || s.balancer.before[0] != core
    ensures Step(Step(s, Balancer(Take(core)), true), Balancer(Go), true)
         == s.(slots := s.slots[0 := core], num := 1,
               balancer := WaitPids(Request(ActionFor([core], |s.balancer.before|), [core])))
  {
    var u := s.(slots := s.slots[0 := core], balancer := Scan(1, s.balancer.before));
    assert Step(s, Balancer(Take(core)), true) == u;
    assert u.slots[..1] == [core];
  }

  lemma AfterPush(s: State, es: seq<Event>, e: Event)
    ensures After(s, es + [e], true) == Step(After(s, es, true), e, true)
  {
    assert (es + [e])[..|es|] == es;
  }

  lemma AfterFour(s: State, a: Event, b: Event, c: Event, d: Event)
    ensures After(s, [a, b, c, d], true) == Step(Step(Step(Step(s, a, true), b, true), c, true), d, true)
  {
    assert After(s, [], true) == s;
    hide Step, After;
    AfterPush(s, [], a);
    AfterPush(s, [a], b);
    AfterPush(s, [a, b], c);
    AfterPush(s, [a, b, c], d);
    assert [] + [a] == [a] && [a] + [b] == [a, b] && [a, b] + [c] == [a, b, c] && [a, b, c] + [d] == [a, b, c, d];
  }

  /** The state after the next rebalance has been published. */
  function Relisted(s: State): State
    requires |s.slots| == SLOTS
  {
    var core := if s.slots[0] == 0 then 1 else 0;
    s.(slots := s.slots[0 := core], num := 1, balancer := WaitPids(Request(ActionFor([core], s.num), [core])))
  }

  lemma NextRebalanceLists(s: State)
    requires |s.slots| == SLOTS && s.num <= SLOTS && s.balancer.HeadAgain? && s.control == 1
    ensures After(s, NextRebalance(s), true) == Relisted(s)
  {
    hide Step;
    var core := if s.slots[0] == 0 then 1 else 0;
    assert s.num > 0 ==> s.slots[..s.num][0] == s.slots[0];
    BeginsScan(s);
    ListsOneCore(s.(balancer := Scan(0, s.slots[..s.num])), core);
    AfterFour(s, Balancer(Skip), Balancer(Go), Balancer(Take(core)), Balancer(Go));
  }

  lemma NextRebalanceDisturbs(s: State)
    requires |s.slots| == SLOTS && s.num <= SLOTS && s.balancer.HeadAgain? && s.control == 1
    requires s.monitor.Placing? && s.monitor.req.list == s.slots[..s.num]
    ensures !Stable(After(s, NextRebalance(s), true))
  {
    hide NextRebalance, After;
    NextRebalanceLists(s);
    var core := if s.slots[0] == 0 then 1 else 0;
    assert s.slots[0 := core][..1] == [core];
    assert s.num > 0 ==> s.slots[..s.num][0] == s.slots[0];
  }

  lemma AbandonedBreaks(s: State) returns (es: seq<Event>)
    requires Guarded(s) && Overwrites(s, Listener(false)) && Abandoned(s)
    ensures NoOverwriteIn(Any, Step(s, Listener(false), true), es, true)
    ensures !Stable(After(Step(s, Listener(false), true), es, true))
  {
    var t := Step(s, Listener(false), true);
    var serve, head := if t.monitor.Poll? then [Monitor] else [], if t.balancer.Head? then [Balancer(Skip)] else [];
    var u := if t.monitor.Poll? then Step(t, Monitor, true) else t;
    var v := if u.balancer.Head? then Step(u, Balancer(Skip), true) else u;
    assert v.monitor.Placing? && v.balancer.HeadAgain? && v.control == 1 && v.slots == s.slots && v.num == s.num;
    NextRebalanceDisturbs(v);
    es := serve + (head + NextRebalance(v));
    OthersOverwriteNothing(t, es, true);
    hide NextRebalance, Guarded, Abandoned, GivenUp;
    AfterConcat(t, serve, head + NextRebalance(v), true);
    AfterConcat(u, head, NextRebalance(v), true);
    AfterOne(t, Monitor, [], true);
    AfterOne(u, Balancer(Skip), [], true);
    assert [Monitor] + [] == [Monitor] && [Balancer(Skip)] + [] == [Balancer(Skip)];
  }

  /**
   When the list can be changed under `twopa`. Let no stop have been overwritten
   with a request abandoned so far, and let one be overwritten now. Then the run
   can go on, without another stop being overwritten, to a state in which the
   list is not the one that a running `twopa` started with, if and only if a
   request is abandoned now.
   */
  lemma OverwriteBreaksExactly(es: seq<Event>)
    requires NoOverwriteIn(Abandoned, Initial(), es, true) && Overwrites(Run(es, true), Listener(false))
    ensures Abandoned(Run(es, true)) <==>
            exists more :: NoOverwriteIn(Any, Run(es + [Listener(false)], true), more, true)
                        && !Stable(Run(es + [Listener(false)] + more, true))
  {
    var s, l := Run(es, true), [Listener(false)];
    var t := Step(s, Listener(false), true);
    GuardedAfter(Initial(), es, true);
    RunOn(es);
    hide Abandoned, Guarded, Step, Overwrites, Stable;
    if Abandoned(s) {
      var more := AbandonedBreaks(s);
      AfterConcat(Initial(), es + l, more, true);
    } else {
      GuardedStep(s, Listener(false), true);
      forall more | NoOverwriteIn(Any, Run(es + l, true), more, true) ensures Stable(Run(es + l + more, true)) {
        AfterConcat(Initial(), es + l, more, true);
        AnyCovers(t, more);
        GuardedAfter(t, more, true);
        GuardedIsStable(After(t, more, true));
      }
    }
  }

  lemma RunOn(es: seq<Event>)
    ensures Run(es + [Listener(false)], true) == Step(Run(es, true), Listener(false), true)
  {
    assert (es + [Listener(false)])[..|es|] == es;
  }

  lemma AnyCovers(s: State, es: seq<Event>)
    requires NoOverwriteIn(Any, s, es, true)
    ensures NoOverwriteIn(Abandoned, s, es, true) && NoOverwriteIn(GivenUp, s, es, true)
  {
    assert forall t :: Any(t);
    FewerBad(Any, Abandoned, s, es, true);
    FewerBad(Any, GivenUp, s, es, true);
  }

  // Requests that return unserved

  /** Some request returned without a run of `twopa` completed since its flag was raised. */
  ghost predicate Unserved(s: State) {
    exists k :: 0 <= k < |s.spans| && s.spans[k].from == s.spans[k].to
  }

  lemma MatchedIsServed(s: State)
    requires Matched(s)
    ensures !Unserved(s)
  {
    forall k | 0 <= k < |s.spans| ensures s.spans[k].from != s.spans[k].to {
      assert s.served[s.spans[k].from..s.spans[k].to] == [s.acked[k]];
    }
  }

  /** The Monitor up to where it clears the flag. */
  function ToClearing(s: State): seq<Event> {
    match s.monitor
    case Poll => [Monitor, Monitor]
    case Placing(_) => [Monitor]
    case Clearing(_) => []
  }

  /** With the Monitor about to clear the flag, the next request is cleared unserved, and returns. */
  lemma ClearedUnserved(t: State)
    requires t.balancer.WaitPids? && t.balancer.req.action > 0 && t.monitor.Clearing? && !t.updatingPids
    ensures Unserved(Step(Step(Step(Step(t, Balancer(Skip), true), Balancer(Skip), true), Monitor, true), Balancer(Skip), true))
  {
    var r, n := t.balancer.req, |t.served|;
    var u := Step(Step(t, Balancer(Skip), true), Balancer(Skip), true);
    assert u == t.(needs := r.action, balancer := WaitDone(r, n));
    var v := Step(Step(u, Monitor, true), Balancer(Skip), true);
    assert v.spans == t.spans + [Span(n, n)];
    assert v.spans[|t.spans|] == Span(n, n);
  }

  lemma NextRequestUnserved(s: State)
    requires |s.slots| == SLOTS && s.num <= SLOTS && s.balancer.HeadAgain? && s.control == 1
    requires s.monitor.Clearing? && !s.updatingPids
    ensures Unserved(After(After(s, NextRebalance(s), true), [Balancer(Skip), Balancer(Skip), Monitor, Balancer(Skip)], true))
  {
    NextRebalanceLists(s);
    ClearedUnserved(Relisted(s));
    hide NextRebalance, Unserved, Step;
    AfterFour(Relisted(s), Balancer(Skip), Balancer(Skip), Monitor, Balancer(Skip));
  }

  lemma GivenUpLoses(s: State) returns (es: seq<Event>)
    requires Calm(s) && Overwrites(s, Listener(false)) && GivenUp(s)
    ensures NoOverwriteIn(Any, Step(s, Listener(false), true), es, true)
    ensures Unserved(After(Step(s, Listener(false), true), es, true))
  {
    var t := Step(s, Listener(false), true);
    var head := if t.balancer.Head? then [Balancer(Skip)] else [];
    var u := After(t, ToClearing(t), true);
    ClearingReached(t);
    var v := if u.balancer.Head? then Step(u, Balancer(Skip), true) else u;
    assert v.monitor.Clearing? && v.balancer.HeadAgain? && v.control == 1 && v.slots == s.slots && v.num == s.num && !v.updatingPids;
    NextRequestUnserved(v);
    var last := [Balancer(Skip), Balancer(Skip), Monitor, Balancer(Skip)];
    es := ToClearing(t) + (head + (NextRebalance(v) + last));
    OthersOverwriteNothing(t, es, true);
    hide NextRebalance, ToClearing, Calm, GivenUp, Unserved, Step;
    AfterConcat(t, ToClearing(t), head + (NextRebalance(v) + last), true);
    AfterConcat(u, head, NextRebalance(v) + last, true);
    AfterConcat(v, NextRebalance(v), last, true);
    AfterOne(u, Balancer(Skip), [], true);
    assert [Balancer(Skip)] + [] == [Balancer(Skip)];
  }

  lemma ClearingReached(s: State)
    requires s.monitor.Poll? ==> s.needs > 0 && s.num <= |s.slots|
    ensures var t := After(s, ToClearing(s), true);
            t.monitor.Clearing? && t == s.(monitor := t.monitor, served := t.served)
  {
    assert [Monitor, Monitor][..1] == [Monitor] && [Monitor][..0] == [];
    assert After(s, [Monitor], true) == Step(s, Monitor, true);
  }

  /**
   When a request can return unserved. Let no stop have been overwritten with a
   request given up so far, so that every request that returned was served, and
   let one be overwritten now. Then the run can go on, without another stop being
   overwritten, to a request that returns with no run of `twopa` since its flag was
   raised, if and only if a request is given up now, wherever the Monitor is.
   */
  lemma OverwriteLosesExactly(es: seq<Event>)
    requires NoOverwriteIn(GivenUp, Initial(), es, true) && Overwrites(Run(es, true), Listener(false))
    ensures GivenUp(Run(es, true)) <==>
            exists more :: NoOverwriteIn(Any, Run(es + [Listener(false)], true), more, true)
                        && Unserved(Run(es + [Listener(false)] + more, true))
  {
    var s, l := Run(es, true), [Listener(false)];
    var t := Step(s, Listener(false), true);
    Reachable(es, true);
    RunOn(es);
    hide GivenUp, Calm, Matched, WaitOk, Step, Overwrites, Unserved;
    if GivenUp(s) {
      var more := GivenUpLoses(s);
      AfterConcat(Initial(), es + l, more, true);
    } else {
      CalmStep(s, Listener(false), true);
      SpansStep(s, Listener(false), true);
      forall more | NoOverwriteIn(Any, Run(es + l, true), more, true) ensures !Unserved(Run(es + l + more, true)) {
        AfterConcat(Initial(), es + l, more, true);
        AnyCovers(t, more);
        SoundAfter(t, more, true);
        MatchedIsServed(After(t, more, true));
      }
    }
  }

  // Two runs

  /**
   The Listener reads a paused control word; the stop arrives, and with it the
   Balancer leaves its start, asks for the empty list and gives that request up;
   while `twopa` serves it the stop is overwritten, and the next sample lists a core.
   */
  const OVERWRITING := [
    Listener(false), Listener(false), Signal,
    Balancer(Skip), Balancer(Go), Balancer(Skip), Balancer(Skip), Balancer(Skip), Balancer(Skip),
    Monitor, Listener(false),
    Balancer(Skip), Balancer(Skip), Balancer(Go), Balancer(Take(6)), Balancer(Go)]

  lemma Extend(es: seq<Event>, n: nat)
    requires n < |es|
    ensures Run(es[..n + 1], true) == Step(Run(es[..n], true), es[n], true)
  {
    assert es[..n + 1][..n] == es[..n];
  }

  lemma FirstRequestAfterStop()
    ensures Run(OVERWRITING[..5], true)
         == Initial().(control := -1, balancer := WaitPids(Request(EMPTY, [])), listener := Writing)
  {
    assert OVERWRITING[..0] == [] && Run(OVERWRITING[..0], true) == Initial();
    hide Run;
    Extend(OVERWRITING, 0);
    Extend(OVERWRITING, 1);
    Extend(OVERWRITING, 2);
    Extend(OVERWRITING, 3);
    assert Initial().slots[..0] == [];
    Extend(OVERWRITING, 4);
  }

  /** Stopped before its first request is served, the Balancer leaves the flag raised. */
  lemma FlagLeftRaised()
    ensures Run(OVERWRITING[..9], true)
         == Initial().(control := -1, needs := EMPTY, balancer := Head, listener := Writing)
  {
    hide Run;
    FirstRequestAfterStop();
    Extend(OVERWRITING, 5);
    Extend(OVERWRITING, 6);
    Extend(OVERWRITING, 7);
    Extend(OVERWRITING, 8);
  }

  lemma NextSampleUnderTwopa()
    ensures Run(OVERWRITING[..13], true)
         == Initial().(control := 1, needs := EMPTY, balancer := Sample, monitor := Placing(Request(EMPTY, [])))
  {
    hide Run;
    FlagLeftRaised();
    assert Initial().slots[..0] == [];
    Extend(OVERWRITING, 9);
    Extend(OVERWRITING, 10);
    Extend(OVERWRITING, 11);
    Extend(OVERWRITING, 12);
  }

  /** The Balancer rewrites the list under the run of `twopa` that serves that flag. */
  lemma OverwritingBreaksTwopa()
    ensures !Stable(Run(OVERWRITING, true))
  {
    hide Run;
    NextSampleUnderTwopa();
    Extend(OVERWRITING, 13);
    Extend(OVERWRITING, 14);
    assert Initial().slots[0 := 6][..1] == [6];
    Extend(OVERWRITING, 15);
    assert OVERWRITING[..16] == OVERWRITING;
  }

  /** Every run keeps the list still under `twopa` exactly when the control word is read and set in one step. */
  lemma StableIffAtomic(split: bool)
    ensures (forall es :: Stable(Run(es, split))) <==> !split
  {
    if split {
      OverwritingBreaksTwopa();
    } else {
      forall es ensures Stable(Run(es, split)) {
        AtomicIsCareful(es);
        FewerBad(Any, GivenUp, Initial(), es, split);
        AcknowledgedMeansServed(es, split);
      }
    }
  }

  /** The same with the Monitor between `twopa` and clearing the flag when the stop is overwritten. */
  const LOSING := [
    Listener(false), Listener(false), Signal,
    Balancer(Skip), Balancer(Go), Balancer(Skip), Balancer(Skip), Balancer(Skip), Balancer(Skip),
    Monitor, Monitor, Listener(false),
    Balancer(Skip), Balancer(Skip), Balancer(Go), Balancer(Take(6)), Balancer(Go),
    Balancer(Skip), Balancer(Skip), Monitor, Balancer(Skip)]

  lemma StoppedInClearing()
    ensures Run(LOSING[..12], true)
         == Initial().(control := 1, needs := EMPTY, balancer := Head, monitor := Clearing(Request(EMPTY, [])),
                       served := [Request(EMPTY, [])])
  {
    assert LOSING[..9] == OVERWRITING[..9];
    assert LOSING[9] == LOSING[10] == Monitor && LOSING[11] == Listener(false);
    FlagLeftRaised();
    hide Run, LOSING, OVERWRITING;
    assert Initial().slots[..0] == [];
    LosingLength();
    Extend(LOSING, 9);
    Extend(LOSING, 10);
    Extend(LOSING, 11);
  }

  lemma LosingLength()
    ensures |LOSING| == 21 && LOSING[..21] == LOSING
    ensures LOSING[12] == LOSING[13] == LOSING[17] == LOSING[18] == LOSING[20] == Balancer(Skip)
    ensures LOSING[14] == LOSING[16] == Balancer(Go) && LOSING[15] == Balancer(Take(6)) && LOSING[19] == Monitor
  {}

  lemma LostRequestPublished()
    ensures Run(LOSING[..17], true)
         == Initial().(control := 1, needs := EMPTY, slots := Initial().slots[0 := 6], num := 1,
                       balancer := WaitPids(Request(GROW, [6])), monitor := Clearing(Request(EMPTY, [])),
                       served := [Request(EMPTY, [])])
  {
    hide Run;
    StoppedInClearing();
    assert Initial().slots[..0] == [];
    LosingLength();
    hide LOSING;
    Extend(LOSING, 12);
    Extend(LOSING, 13);
    Extend(LOSING, 14);
    Extend(LOSING, 15);
    assert Initial().slots[0 := 6][..1] == [6];
    Extend(LOSING, 16);
  }

  /** A request for core 6 returns as if it had been served; `twopa` has only ever run for the empty list. */
  lemma LosingReturnsUnserved()
    ensures var s := Run(LOSING, true);
            && s.acked == [Request(GROW, [6])] && s.served == [Request(EMPTY, [])] && Unserved(s)
  {
    hide Run;
    LostRequestPublished();
    LosingLength();
    Extend(LOSING, 17);
    Extend(LOSING, 18);
    Extend(LOSING, 19);
    Extend(LOSING, 20);
    assert Run(LOSING, true).spans == [Span(1, 1)];
    assert Run(LOSING, true).spans[0] == Span(1, 1);
  }

  /** Every request that returns has been served, in every run, exactly when the control word is read and set in one step. */
  lemma ServedIffAtomic(split: bool)
    ensures (forall es :: !Unserved(Run(es, split))) <==> !split
  {
    if split {
      LosingReturnsUnserved();
    } else {
      forall es ensures !Unserved(Run(es, split)) {
        AtomicIsCareful(es);
        FewerBad(Any, GivenUp, Initial(), es, split);
        AcknowledgedMeansServed(es, split);
        MatchedIsServed(Run(es, split));
      }
    }
  }
}
