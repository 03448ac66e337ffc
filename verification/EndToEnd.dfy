/**
 From the Balancer's bookkeeping to where Secondary tasks run: what the lists that the Balancer
 publishes mean for the Secondary tasks that the Monitor places by them.
 */
module EndToEnd {
  import opened BalancerSteps
  import Handshake
  import opened Requests
  import opened Sets
  import opened Harvester
  import opened Placement

  /** The cores that a published list adds up to, besides the dedicated ones, are the mask in force. */
  lemma PublishedUnion(s: State, lowTic: int, b: Block)
    requires Inv(s, lowTic) && b.Valid() && b.Live() == s.published
    ensures b.Union() == Elems(b.dedicated) + s.lastMask
  {
    CanonicalElems(s.ctrs, s.lastMask, lowTic);
    assert AllCores(s.ctrs) * s.lastMask == s.lastMask;
  }

  /** The theorem below, for any state that the invariant holds of. */
  lemma OffTheReserve(s: State, lowTic: int, i: nat, b: Block, affinity: map<int, set<int>>, cs: seq<Container>, pid: int, j: nat)
    requires Inv(s, lowTic) && i < |s.ctrs|
    requires b.Valid() && b.Live() == s.published && Elems(b.dedicated) !! AllCores(s.ctrs)
    requires pid in affinity && forall c | c in cs :: c.Valid()
    requires j < |cs| && ReachedAlive(cs[j], pid) && forall k :: j < k < |cs| ==> Quiet(b, cs[k], pid)
    requires Elems(b.dedicated) + s.lastMask != {}
    ensures pid in TwoPhase(b, affinity, cs).affinity
    ensures var final := TwoPhase(b, affinity, cs).affinity[pid];
            final == Elems(b.dedicated) + s.lastMask && |Elems(s.ctrs[i].cpuList) - final| >= lowTic
  {
    PublishedUnion(s, lowTic, b);
    ReserveOf(s, lowTic, i);
    CoreOf(s.ctrs, i);
    hide Inv, TwoPhase;
    TwoPhaseGivesTheUnion(b, affinity, cs, pid, j);
    assert Elems(s.ctrs[i].cpuList) - (Elems(b.dedicated) + s.lastMask) == Elems(s.ctrs[i].cpuList) - s.lastMask;
  }

  /**
   In every reachable state of the Balancer, a run of `twopa` over the list it
   has published leaves a Secondary task that it last finds alive with exactly the
   dedicated cores and the mask in force; so, if no dedicated core belongs to a
   Primary, LOW_TIC cores of every Primary are out of the reach of every such task.
   */
  lemma SecondaryStaysOffTheReserve(es: seq<Event>, lowTic: int, i: nat, b: Block,
                                    affinity: map<int, set<int>>, cs: seq<Container>, pid: int, j: nat)
    requires Admissible(es, lowTic) && i < |Run(es, lowTic).ctrs|
    requires b.Valid() && b.Live() == Run(es, lowTic).published && Elems(b.dedicated) !! AllCores(Run(es, lowTic).ctrs)
    requires pid in affinity && forall c | c in cs :: c.Valid()
    requires j < |cs| && ReachedAlive(cs[j], pid) && forall k :: j < k < |cs| ==> Quiet(b, cs[k], pid)
    requires Elems(b.dedicated) + Run(es, lowTic).lastMask != {}
    ensures pid in TwoPhase(b, affinity, cs).affinity
    ensures var final := TwoPhase(b, affinity, cs).affinity[pid];
            && final == Elems(b.dedicated) + Run(es, lowTic).lastMask
            && |Elems(Run(es, lowTic).ctrs[i].cpuList) - final| >= lowTic
  {
    hide Inv, Run, Admissible, TwoPhase;
    Reachable(es, lowTic);
    OffTheReserve(Run(es, lowTic), lowTic, i, b, affinity, cs, pid, j);
  }

  /** What a step asks for. */
  ghost function Asked(s: State, e: Event): seq<Request>
    requires Shaped(s)
  {
    if e.Allocate? && s.evaluated && s.triggered then RequestsOf(s) else []
  }

  /** All requests for a rebalance that a run makes. */
  ghost function Requested(es: seq<Event>, lowTic: int): seq<Request> {
    if |es| == 0 then []
    else Requested(es[..|es| - 1], lowTic) + Asked(Run(es[..|es| - 1], lowTic), es[|es| - 1])
  }

  /** An allocation that asks for nothing leaves the published list as it was; one that asks, asks for the new list. */
  lemma RequestIsNewList(s: State, lowTic: int)
    requires Inv(s, lowTic)
    ensures var rs := RequestsOf(s);
            if rs == [] then Allocated(s).published == s.published != []
            else && |rs| == 1 && rs[0].list == Allocated(s).published && |rs[0].list| <= SLOTS
                 && AsksByLength(rs[0].action, rs[0].list, |s.published|)
                 && (rs[0].list == [] || rs[0].list != s.published)
  {
    AllocateKeepsLists(s, lowTic);
    ListFits(s, |s.ctrs|, lowTic);
    ActionByLength(ListUpTo(s, |s.ctrs|), |s.published|);
    CanonicalElems(s.ctrs, s.lastMask, lowTic);
    assert AllCores(s.ctrs) * s.lastMask == s.lastMask;
    assert Elems(s.published) == s.lastMask;
  }

  /**
   The handshake's step at the end of a scan is what the allocation decides: with
   the list written and the old one in mind, it makes the same request or none.
   */
  lemma HandshakeCarriesRequests(s: State, h: Handshake.State, lowTic: int)
    requires Inv(s, lowTic)
    requires |ListUpTo(s, |s.ctrs|)| <= |h.slots| && h.slots[..|ListUpTo(s, |s.ctrs|)|] == ListUpTo(s, |s.ctrs|)
    ensures var pos, rs := |ListUpTo(s, |s.ctrs|)|, RequestsOf(s);
            Handshake.Complete(h, pos, s.published)
            == if rs == [] then h.(balancer := Handshake.Head) else h.(num := pos, balancer := Handshake.WaitPids(rs[0]))
  {
    AllocateKeepsLists(s, lowTic);
    CanonicalElems(s.ctrs, s.lastMask, lowTic);
    assert AllCores(s.ctrs) * s.lastMask == s.lastMask;
    assert Elems(s.published) == s.lastMask;
  }

  lemma PublishedAfter(s: State, e: Event, lowTic: int)
    requires Shaped(s)
    ensures Step(s, e, lowTic).published
         == if e.Allocate? && s.evaluated && s.triggered then Allocated(s).published else s.published
  {}

  /** The list is the one last asked for; all lists asked for fit the slots, with the actions that their lengths call for. */
  ghost predicate LastAsked(rs: seq<Request>, list: seq<int>) {
    && list == (if rs == [] then [] else rs[|rs| - 1].list)
    && (forall k :: 0 <= k < |rs| ==> |rs[k].list| <= SLOTS)
    && ByLength(rs)
  }

  lemma StepAsksForList(s: State, e: Event, lowTic: int, rs: seq<Request>)
    requires Shaped(s) && Inv(s, lowTic) && LastAsked(rs, s.published)
    ensures LastAsked(rs + Asked(s, e), Step(s, e, lowTic).published)
  {
    hide Inv, RequestsOf, Step, Allocated;
    PublishedAfter(s, e, lowTic);
    hide ByLength, AsksByLength;
    if e.Allocate? && s.evaluated && s.triggered {
      RequestIsNewList(s, lowTic);
      var asked := Asked(s, e);
      if asked == [] {
        assert rs + asked == rs;
      } else {
        assert asked == [asked[0]];
        PushByLength(rs, asked[0]);
      }
    } else {
      assert rs + Asked(s, e) == rs;
    }
  }

  /**
   In every reachable state the published list is the one that was last asked
   for, so not asking when the mask is unchanged never leaves the Monitor with
   another list; and every list asked for fits the slots.
   */
  lemma {:induction false} LastRequestIsPublished(es: seq<Event>, lowTic: int)
    requires Admissible(es, lowTic)
    ensures LastAsked(Requested(es, lowTic), Run(es, lowTic).published)
  {
    if |es| > 0 {
      hide LastAsked, Step, Inv, Asked;
      LastRequestIsPublished(es[..|es| - 1], lowTic);
      Reachable(es[..|es| - 1], lowTic);
      StepAsksForList(Run(es[..|es| - 1], lowTic), es[|es| - 1], lowTic, Requested(es[..|es| - 1], lowTic));
    }
  }
}
