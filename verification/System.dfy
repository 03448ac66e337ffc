/**
 Balancer, Monitor and Listener together: the handshake of `Handshake`, with the
 choices it leaves open made by the bookkeeping of `Harvester`. A sample is
 evaluated when the handshake's Balancer takes one, the cores it lists are the
 ones the allocation picks, and Primaries register at any time.
 */
module System {
  import opened BalancerSteps
  import opened Controller
  import opened Placement
  import EndToEnd
  import H = Handshake
  import B = Harvester
  import opened Requests
  import opened Sets

  datatype State = State(h: H.State, b: B.State)

  /** `Hand` is a step that needs no data; `Sampled` and `Listed` are the Balancer's, with the data. */
  datatype Event = Hand(e: H.Event) | Register(ctr: PrimaryCtr) | Sampled(active: set<int>, elapsed: seq<nat>) | Listed

  function Initial(): State { State(H.Initial(), B.START) }

  /** The list that the allocation in progress comes to. */
  function List(b: B.State): seq<int>
    requires B.Shaped(b)
  {
    B.ListUpTo(b, |b.ctrs|)
  }

  function Choose(s: State, c: H.Choice): H.State { H.Step(s.h, H.Balancer(c), true) }

  /** One iteration's decision: no new mask, nothing to do, or a rebalance to come. */
  function Sample(s: State, active: set<int>, dt: seq<nat>, lowTic: int): State
    requires B.Shaped(s.b)
  {
    if s.b.evaluated || active == s.b.idleMask || |dt| < |s.b.ctrs| then s.(h := Choose(s, H.Skip))
    else
      var t := B.Evaluated(s.b, active, dt, lowTic);
      if t.triggered then State(Choose(s, H.Go), t) else State(Choose(s, H.Skip), t.(evaluated := false))
  }

  predicate NeedsData(b: H.BalancerAt) { b.FirstScan? || b.Scan? || b.Sample? }

  function Step(s: State, e: Event, lowTic: int): (t: State)
    requires B.Shaped(s.b)
    ensures B.Shaped(t.b)
  {
    match e
    case Hand(e) => if e.Balancer? && NeedsData(s.h.balancer) then s else s.(h := H.Step(s.h, e, true))
    case Register(r) => s.(b := B.Step(s.b, B.Register(r), lowTic))
    case Sampled(active, dt) => if s.h.balancer.Sample? then Sample(s, active, dt, lowTic) else s
    case Listed =>
      if s.h.balancer.FirstScan? then s.(h := Choose(s, H.Go))
      else if s.h.balancer.Scan? && s.h.balancer.pos < |List(s.b)| then s.(h := Choose(s, H.Take(List(s.b)[s.h.balancer.pos])))
      else if s.h.balancer.Scan? then State(Choose(s, H.Go), B.Allocated(s.b))
      else s
  }

  function After(s: State, es: seq<Event>, lowTic: int): (t: State)
    requires B.Shaped(s.b)
    ensures B.Shaped(t.b)
  {
    if |es| == 0 then s else Step(After(s, es[..|es| - 1], lowTic), es[|es| - 1], lowTic)
  }

  function Run(es: seq<Event>, lowTic: int): (t: State)
    ensures B.Shaped(t.b)
  {
    After(Initial(), es, lowTic)
  }

  // What links the two

  /** The scan in progress has written the beginning of the list; otherwise the list published is the bookkeeping's. */
  ghost predicate Linked(s: State) {
    && B.Shaped(s.b) && |s.h.slots| == SLOTS && s.h.num <= SLOTS && |s.b.published| == s.h.num
    && (s.h.balancer.Start? || s.h.balancer.FirstScan? ==> s.b.published == [])
    && (match s.h.balancer
        case Scan(pos, before) =>
          && s.b.evaluated && s.b.triggered && before == s.b.published
          && pos <= |List(s.b)| && pos <= SLOTS && s.h.slots[..pos] == List(s.b)[..pos]
        case _ => !s.b.evaluated && s.h.slots[..s.h.num] == s.b.published)
  }

  /** The list that an allocation comes to can be written as the handshake writes it, and is the one published then. */
  ghost predicate Writable(b: B.State)
    requires B.Shaped(b)
  {
    && |List(b)| <= SLOTS && NoDup(List(b)) && (forall c | c in List(b) :: 0 <= c < SLOTS)
    && B.Allocated(b).published == List(b)
  }

  lemma AlwaysWritable(b: B.State, lowTic: int)
    requires B.Shaped(b) && B.Inv(b, lowTic)
    ensures Writable(b)
  {
    B.AllocateKeepsLists(b, lowTic);
    ListFits(b, |b.ctrs|, lowTic);
    B.CanonicalElems(b.ctrs, B.Allocated(b).lastMask, lowTic);
    B.CoresBelow64(b.ctrs, lowTic);
    forall c | c in List(b) ensures 0 <= c < SLOTS {
      assert c in Elems(List(b));
    }
  }

  lemma ChoiceAtSample(s: State)
    requires s.h.balancer.Sample? && s.h.num <= |s.h.slots|
    ensures Choose(s, H.Skip) == s.h.(balancer := H.Head)
    ensures Choose(s, H.Go) == s.h.(balancer := H.Scan(0, s.h.slots[..s.h.num]))
  {}

  lemma EvaluatedFrame(b: B.State, active: set<int>, dt: seq<nat>, lowTic: int)
    requires B.Shaped(b) && |b.ctrs| <= |dt|
    ensures var t := B.Evaluated(b, active, dt, lowTic);
            B.Shaped(t) && t.published == b.published && t.evaluated
  {}

  lemma SampleLinked(s: State, active: set<int>, dt: seq<nat>, lowTic: int)
    requires Linked(s) && s.h.balancer.Sample?
    ensures Linked(Sample(s, active, dt, lowTic))
  {
    hide B.Evaluated, B.ListUpTo, Choose;
    ChoiceAtSample(s);
    if !(s.b.evaluated || active == s.b.idleMask || |dt| < |s.b.ctrs|) {
      EvaluatedFrame(s.b, active, dt, lowTic);
    }
  }

  /** The next core of the list, as the handshake writes it. */
  lemma TakeListed(s: State, lowTic: int)
    requires Linked(s) && Writable(s.b) && s.h.balancer.Scan? && s.h.balancer.pos < |List(s.b)|
    ensures var pos, list, t := s.h.balancer.pos, List(s.b), Step(s, Listed, lowTic);
            && t == s.(h := s.h.(slots := s.h.slots[pos := list[pos]], balancer := H.Scan(pos + 1, s.b.published)))
            && Linked(t)
  {
    hide B.ListUpTo, B.Allocated;
    var pos, list := s.h.balancer.pos, List(s.b);
    assert list[pos] in list;
    assert forall k :: 0 <= k < pos ==> s.h.slots[..pos][k] == list[k];
    assert s.h.slots[pos := list[pos]][..pos + 1] == list[..pos + 1];
  }

  /** The end of the list: the allocation is made, and the handshake asks for it, or not. */
  lemma ListComplete(s: State, lowTic: int)
    requires Linked(s) && Writable(s.b) && s.h.balancer.Scan? && s.h.balancer.pos == |List(s.b)|
    ensures var list, t := List(s.b), Step(s, Listed, lowTic);
            && t == State(H.Complete(s.h, |list|, s.b.published), B.Allocated(s.b))
            && Linked(t)
  {
    var list := List(s.b);
    AllocatedFrame(s.b);
    hide B.ListUpTo, B.Allocated;
    assert list[..|list|] == list;
  }

  lemma AllocatedFrame(b: B.State)
    requires B.Shaped(b)
    ensures B.Shaped(B.Allocated(b)) && !B.Allocated(b).evaluated && B.Allocated(b).idleMask == b.idleMask
  {}

  lemma FirstListed(s: State, lowTic: int)
    requires Linked(s) && s.h.balancer.FirstScan?
    ensures Linked(Step(s, Listed, lowTic))
  {
    hide B.ListUpTo;
    assert s.h.slots[..0] == [];
  }

  /** A Primary that registers, also in the middle of a scan, changes no list. */
  lemma RegisterLinked(s: State, r: PrimaryCtr, lowTic: int)
    requires Linked(s)
    ensures Linked(Step(s, Register(r), lowTic))
  {
    B.LateArrivalLendsNothing(s.b, r, lowTic);
    hide B.ListUpTo, B.Allocated;
  }

  /** The other steps of the handshake leave list and count alone. */
  lemma HandLinked(s: State, e: H.Event, lowTic: int)
    requires Linked(s)
    ensures Linked(Step(s, Hand(e), lowTic))
  {
    hide B.ListUpTo;
  }

  // Whole runs

  /** Registrations are well-formed, and no stop request is overwritten while a request is given up. */
  ghost predicate Proper(s: State, e: Event, lowTic: int)
    requires B.Shaped(s.b)
  {
    && (e.Register? ==> B.RequestOk(s.b, e.ctr, lowTic))
    && !(e.Hand? && H.Overwrites(s.h, e.e) && H.GivenUp(s.h))
  }

  ghost predicate AllProper(es: seq<Event>, lowTic: int) {
    |es| == 0 || (AllProper(es[..|es| - 1], lowTic) && Proper(Run(es[..|es| - 1], lowTic), es[|es| - 1], lowTic))
  }

  lemma BookKept(s: State, e: Event, lowTic: int)
    requires B.Shaped(s.b) && B.Inv(s.b, lowTic) && Proper(s, e, lowTic)
    ensures B.Inv(Step(s, e, lowTic).b, lowTic)
  {
    hide B.Inv, B.RequestOk, B.Evaluated, B.Allocated, B.ListUpTo, Choose;
    match e {
      case Hand(_) =>
      case Register(r) => B.RegisterKeeps(s.b, r, lowTic);
      case Sampled(active, dt) =>
        if s.h.balancer.Sample? && |dt| >= |s.b.ctrs| {
          B.EvaluateKeeps(s.b, active, dt, lowTic);
          var t := B.Evaluated(s.b, active, dt, lowTic);
          B.InvFrame(t, t.(evaluated := false), lowTic);
        }
      case Listed => B.AllocateKeeps(s.b, lowTic);
    }
  }

  lemma LinkKept(s: State, e: Event, lowTic: int)
    requires Linked(s) && Writable(s.b)
    ensures Linked(Step(s, e, lowTic))
  {
    match e {
      case Hand(e) => HandLinked(s, e, lowTic);
      case Register(r) => RegisterLinked(s, r, lowTic);
      case Sampled(active, dt) =>
        if s.h.balancer.Sample? {
          SampleLinked(s, active, dt, lowTic);
        }
      case Listed =>
        if s.h.balancer.FirstScan? {
          FirstListed(s, lowTic);
        } else if s.h.balancer.Scan? && s.h.balancer.pos < |List(s.b)| {
          TakeListed(s, lowTic);
        } else if s.h.balancer.Scan? {
          ListComplete(s, lowTic);
        }
    }
  }

  /** Every step is a step of the handshake, or leaves it as it is. */
  lemma StepOfHandshake(s: State, e: Event, lowTic: int) returns (he: H.Event)
    requires B.Shaped(s.b)
    ensures Step(s, e, lowTic).h == s.h || Step(s, e, lowTic).h == H.Step(s.h, he, true)
    ensures e.Hand? ==> he == e.e
    ensures !e.Hand? ==> he.Balancer?
  {
    hide H.Step, B.Evaluated, B.Allocated, B.ListUpTo;
    he := match e
      case Hand(he) => he
      case Register(_) => H.Balancer(H.Skip)
      case Sampled(active, dt) =>
        H.Balancer(if !s.b.evaluated && active != s.b.idleMask && |dt| >= |s.b.ctrs| && B.Evaluated(s.b, active, dt, lowTic).triggered
                   then H.Go else H.Skip)
      case Listed =>
        H.Balancer(if s.h.balancer.Scan? && s.h.balancer.pos < |List(s.b)| then H.Take(List(s.b)[s.h.balancer.pos]) else H.Go);
  }

  lemma SoundKept(s: State, e: Event, lowTic: int)
    requires B.Shaped(s.b) && H.Sound(s.h) && Proper(s, e, lowTic)
    ensures H.Sound(Step(s, e, lowTic).h)
  {
    hide H.Calm, H.Matched, H.WaitOk, Step, H.Step, B.RequestOk;
    var he := StepOfHandshake(s, e, lowTic);
    if Step(s, e, lowTic).h != s.h {
      H.CalmStep(s.h, he, true);
      H.SpansStep(s.h, he, true);
    }
  }

  lemma InitialLinked(lowTic: int)
    ensures B.Inv(B.START, lowTic) && Linked(Initial()) && H.Sound(H.Initial())
  {
    H.InitialSound();
    assert H.Initial().slots[..0] == [];
  }

  lemma {:induction false} Reachable(es: seq<Event>, lowTic: int)
    requires AllProper(es, lowTic)
    ensures var s := Run(es, lowTic); B.Inv(s.b, lowTic) && Linked(s) && H.Sound(s.h)
  {
    hide B.Inv, Linked, H.Sound, Step, Writable, Proper;
    if |es| > 0 {
      var s, e := Run(es[..|es| - 1], lowTic), es[|es| - 1];
      Reachable(es[..|es| - 1], lowTic);
      AlwaysWritable(s.b, lowTic);
      BookKept(s, e, lowTic);
      LinkKept(s, e, lowTic);
      SoundKept(s, e, lowTic);
    } else {
      InitialLinked(lowTic);
    }
  }

  /**
   Whenever `twopa` is running, in every interleaving, the list it reads is the one
   that the Balancer's bookkeeping stands for at that moment.
   */
  lemma TwopaReadsTheBookkeeping(es: seq<Event>, lowTic: int)
    requires AllProper(es, lowTic)
    ensures var s := Run(es, lowTic);
            && H.Matched(s.h)
            && (s.h.monitor.Placing? ==> s.h.monitor.req.list == s.b.published == B.Canonical(s.b.ctrs, s.b.lastMask))
  {
    Reachable(es, lowTic);
    hide H.Matched, H.WaitOk, B.CtrsOk, B.RecordsOk, B.AllCores;
  }

  /**
   So a run of `twopa`, in every interleaving, leaves a Secondary task that it last
   finds alive with exactly the dedicated cores and the mask in force, and LOW_TIC
   cores of every Primary out of its reach.
   */
  lemma PlacedOffTheReserve(es: seq<Event>, lowTic: int, i: nat, b: Block,
                            affinity: map<int, set<int>>, cs: seq<Container>, pid: int, j: nat)
    requires AllProper(es, lowTic) && Run(es, lowTic).h.monitor.Placing? && i < |Run(es, lowTic).b.ctrs|
    requires b.Valid() && b.Live() == Run(es, lowTic).h.monitor.req.list
    requires Elems(b.dedicated) !! B.AllCores(Run(es, lowTic).b.ctrs)
    requires pid in affinity && forall c | c in cs :: c.Valid()
    requires j < |cs| && ReachedAlive(cs[j], pid) && forall k :: j < k < |cs| ==> Quiet(b, cs[k], pid)
    requires Elems(b.dedicated) + Run(es, lowTic).b.lastMask != {}
    ensures pid in TwoPhase(b, affinity, cs).affinity
    ensures var s, final := Run(es, lowTic).b, TwoPhase(b, affinity, cs).affinity[pid];
            final == Elems(b.dedicated) + s.lastMask && |Elems(s.ctrs[i].cpuList) - final| >= lowTic
  {
    hide Run, AllProper, B.Inv, Linked, H.Sound, TwoPhase;
    Reachable(es, lowTic);
    TwopaReadsTheBookkeeping(es, lowTic);
    EndToEnd.OffTheReserve(Run(es, lowTic).b, lowTic, i, b, affinity, cs, pid, j);
  }

  /** The threads' part of every run is a run of `Handshake`. */
  lemma {:induction false} RunOfHandshake(es: seq<Event>, lowTic: int) returns (hes: seq<H.Event>)
    ensures H.Run(hes, true) == Run(es, lowTic).h
    ensures AllProper(es, lowTic) ==> H.NoOverwriteIn(H.GivenUp, H.Initial(), hes, true)
  {
    if |es| > 0 {
      var s, e := Run(es[..|es| - 1], lowTic), es[|es| - 1];
      hes := RunOfHandshake(es[..|es| - 1], lowTic);
      hide Step, H.Step;
      var he := StepOfHandshake(s, e, lowTic);
      if Step(s, e, lowTic).h != s.h {
        assert (hes + [he])[..|hes|] == hes;
        hes := hes + [he];
      }
    } else {
      hes := [];
    }
  }

  /** Nothing has been sampled or lent; Primaries may have registered. */
  predicate Unsampled(b: B.State) {
    && b == B.START.(ctrs := b.ctrs, infos := b.infos)
    && |b.infos| == |b.ctrs| && forall i :: 0 <= i < |b.infos| ==> b.infos[i] == INITIAL_INFO
  }

  lemma UnsampledStep(s: State, e: Event, lowTic: int)
    requires Unsampled(s.b) && H.Untouched(s.h)
    ensures Unsampled(Step(s, e, lowTic).b)
  {}

  lemma ControlStays(s: State, e: Event, lowTic: int)
    requires B.Shaped(s.b) && s.h.control != 0
    ensures Step(s, e, lowTic).h.control != 0
  {
    hide B.Evaluated, B.Allocated, B.ListUpTo;
  }

  /**
   In every run, until the Listener or a stop signal has set the control word, no
   sample is evaluated, no core is lent and no flag is raised.
   */
  lemma {:induction false} PausedLendsNothing(es: seq<Event>, lowTic: int)
    requires Run(es, lowTic).h.control == 0
    ensures Unsampled(Run(es, lowTic).b) && H.Untouched(Run(es, lowTic).h)
  {
    var hes := RunOfHandshake(es, lowTic);
    H.PausedWaits(hes, true);
    if |es| > 0 {
      var s := Run(es[..|es| - 1], lowTic);
      hide Step, H.Untouched, Unsampled;
      if s.h.control != 0 {
        ControlStays(s, es[|es| - 1], lowTic);
      }
      PausedLendsNothing(es[..|es| - 1], lowTic);
      UnsampledStep(s, es[|es| - 1], lowTic);
    }
  }
}
