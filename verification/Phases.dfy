/**
 Which action the Monitor finds when it serves a request, over whole runs of the
 handshake (Balancer/balancer.c, Monitor/monitor.c), and so when tasks are placed
 one by one: the first phase of `twopa` is for lists that did not get shorter.
 */
module Phases {
  import opened Handshake
  import opened Placement
  import opened Requests

  /** The request that a step makes: a scan has ended with one. */
  function Makes(s: State, t: State): seq<Request> {
    if (s.balancer.Scan? || s.balancer.FirstScan?) && t.balancer.WaitPids? then [t.balancer.req] else []
  }

  /** The requests that a run makes, in order. */
  function Made(es: seq<Event>, split: bool): seq<Request> {
    if |es| == 0 then []
    else Made(es[..|es| - 1], split) + Makes(Run(es[..|es| - 1], split), Run(es, split))
  }

  function InForce(rs: seq<Request>): seq<int> {
    if rs == [] then [] else rs[|rs| - 1].list
  }

  /** The last request made is the one published, waited for, raised and served. */
  ghost predicate LastMade(s: State, rs: seq<Request>) {
    && ByLength(rs) && s.num == |InForce(rs)| <= |s.slots|
    && (if s.balancer.Scan? then s.balancer.before == InForce(rs) else s.slots[..s.num] == InForce(rs))
    && (Asking(s.balancer) ==> rs != [] && s.balancer.req == rs[|rs| - 1])
    && (s.needs > 0 ==> rs != [] && s.needs == rs[|rs| - 1].action)
  }

  lemma ScanMade(s: State, c: Choice, rs: seq<Request>)
    requires Calm(s) && LastMade(s, rs) && (s.balancer.Scan? || s.balancer.FirstScan?)
    ensures LastMade(BalancerStep(s, c), rs + Makes(s, BalancerStep(s, c)))
  {
    hide ByLength;
    var t := BalancerStep(s, c);
    assert rs + [] == rs;
    assert s.needs == 0;
    if t.balancer.WaitPids? {
      var r := t.balancer.req;
      ActionByLength(r.list, Before(rs, |rs|));
      PushByLength(rs, r);
      assert InForce(rs + [r]) == r.list;
    }
  }

  lemma OtherMade(s: State, e: Event, split: bool, rs: seq<Request>)
    requires Calm(s) && LastMade(s, rs) && !(e.Balancer? && (s.balancer.Scan? || s.balancer.FirstScan?))
    ensures LastMade(Step(s, e, split), rs) && Makes(s, Step(s, e, split)) == []
  {
    hide ByLength;
  }

  lemma {:induction false} LastMadeReachable(es: seq<Event>, split: bool)
    requires NoOverwriteIn(GivenUp, Initial(), es, split)
    ensures LastMade(Run(es, split), Made(es, split))
  {
    if |es| > 0 {
      var before, e := es[..|es| - 1], es[|es| - 1];
      var s := Run(before, split);
      LastMadeReachable(before, split);
      Reachable(before, split);
      hide LastMade, Calm, Matched, WaitOk, BalancerStep, MonitorStep, ListenerStep, Makes;
      if e.Balancer? && (s.balancer.Scan? || s.balancer.FirstScan?) {
        ScanMade(s, e.choice, Made(before, split));
      } else {
        OtherMade(s, e, split, Made(before, split));
        assert Made(before, split) + [] == Made(before, split);
      }
    } else {
      assert Initial().slots[..0] == [];
    }
  }

  /**
   In every interleaving that overwrites no stop request while a request is given
   up, the `twopa` running serves the last request made; it is one for no core, for
   a shorter list, or for another list, as its action says; and tasks are placed one
   by one if and only if the list has a core and is not shorter than the one asked
   for before, and some task is seen running.
   */
  lemma PlacesForListsNotShorter(es: seq<Event>, split: bool, b: Block, affinity: map<int, set<int>>, cs: seq<Container>)
    requires NoOverwriteIn(GivenUp, Initial(), es, split) && Run(es, split).monitor.Placing?
    requires b.Valid() && (forall c | c in cs :: c.Valid())
    requires b.needs == Run(es, split).monitor.req.action && b.Live() == Run(es, split).monitor.req.list
    ensures Made(es, split) != [] && ByLength(Made(es, split))
    ensures var rs := Made(es, split);
            && Run(es, split).monitor.req == rs[|rs| - 1]
            && (TwoPhase(b, affinity, cs).log != [] <==>
                  0 < b.num && Before(rs, |rs| - 1) <= b.num && exists i :: 0 <= i < |cs| && SeesRunning(cs[i]))
  {
    Reachable(es, split);
    LastMadeReachable(es, split);
    ServesLastMade(Run(es, split), Made(es, split));
    PlacesExactly(b, affinity, cs);
    hide Run, Made, TwoPhase, Calm, Matched, WaitOk, LastMade, Stable, SeesRunning;
    var rs := Made(es, split);
    assert AsksByLength(rs[|rs| - 1].action, rs[|rs| - 1].list, Before(rs, |rs| - 1));
  }

  lemma ServesLastMade(s: State, rs: seq<Request>)
    requires Calm(s) && LastMade(s, rs) && s.monitor.Placing?
    ensures rs != [] && ByLength(rs) && s.monitor.req == rs[|rs| - 1]
  {}
}
