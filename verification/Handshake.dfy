/**
 The lock-free handshake between Balancer, Monitor and Listener over the shared
 block, one shared access per step: the Balancer rewrites the affinity list and
 raises `needs_rebalance` (Balancer/balancer.c, Balancer/main.c), the Monitor
 serves the flag with `twopa` and clears it (Monitor/monitor.c), the Listener
 starts the Balancer (Listener/listener.cpp), a signal stops it. Memory is
 sequentially consistent. Which cores a sample lists is left open here.
 */
module Handshake {
  import opened Requests

  /**
   Where the Balancer is. `FirstScan` is the scan before the first sample, when no
   core is spared yet; a later scan remembers the list that it started from. A
   request is the action with the list it was made for; while it is waited for,
   `since` is the number of runs of `twopa` there had been when its flag was raised.
   */
  datatype BalancerAt =
    | Start
    | FirstScan
    | Scan(pos: nat, before: seq<int>)
    | WaitPids(req: Request)
    | CheckPids(req: Request)
    | Raise(req: Request)
    | WaitDone(req: Request, since: nat)
    | CheckDone(req: Request, since: nat)
    | Head
    | HeadAgain
    | Sample
    | Exited

  /** `twopa` is running (on what it found when it started), or has returned. */
  datatype MonitorAt = Poll | Placing(req: Request) | Clearing(req: Request)

  /** `Updating` has `updatingPids` raised; `Writing` has read a paused control word. */
  datatype ListenerAt = Idle | Updating | Deciding | Writing

  /** The runs of `twopa` completed while a request was waited for: from the flag raised to the return. */
  datatype Span = Span(from: nat, to: nat)

  /** `served` are the runs of `twopa` completed; `acked` the requests that returned, and `spans` their waits. */
  datatype State = State(
    control: int,
    updatingPids: bool,
    needs: int,
    slots: seq<int>,
    num: nat,
    balancer: BalancerAt,
    monitor: MonitorAt,
    listener: ListenerAt,
    acked: seq<Request>,
    spans: seq<Span>,
    served: seq<Request>)

  /** What a sample decides: to list a core, or that the list is complete; whether to rebalance at all. */
  datatype Choice = Take(core: int) | Go | Skip

  datatype Event = Balancer(choice: Choice) | Monitor | Listener(another: bool) | Signal

  function Initial(): State {
    State(0, false, 0, seq(SLOTS, _ => 0), 0, Start, Poll, Idle, [], [], [])
  }

  /** What is published now, as a request for `action`. */
  function Current(s: State, action: int): Request
    requires s.num <= |s.slots|
  {
    Request(action, s.slots[..s.num])
  }

  /** The list is complete: it is published and asked for, unless it is the old one again. */
  function Complete(s: State, pos: nat, before: seq<int>): State
    requires pos <= |s.slots|
  {
    var list := s.slots[..pos];
    if list != [] && list == before then s.(balancer := Head)
    else s.(num := pos, balancer := WaitPids(Request(ActionFor(list, |before|), list)))
  }

  function BalancerStep(s: State, c: Choice): State {
    match s.balancer
    case Start => if s.control == 0 then s else s.(balancer := FirstScan)
    case FirstScan => if c.Go? then Complete(s, 0, []) else s
    case Scan(pos, before) =>
      if c.Take? && 0 <= c.core < SLOTS && pos < |s.slots| && c.core !in s.slots[..pos] then
        s.(slots := s.slots[pos := c.core], balancer := Scan(pos + 1, before))
      else if c.Go? && pos <= |s.slots| then Complete(s, pos, before)
      else s
    case WaitPids(r) => s.(balancer := if s.updatingPids then CheckPids(r) else Raise(r))
    case CheckPids(r) => s.(balancer := if s.control == -1 then Head else WaitPids(r))
    case Raise(r) => s.(needs := r.action, balancer := WaitDone(r, |s.served|))
    case WaitDone(r, since) =>
      if s.needs == r.action then s.(balancer := CheckDone(r, since))
      else s.(balancer := Head, acked := s.acked + [r], spans := s.spans + [Span(since, |s.served|)])
    case CheckDone(r, since) => s.(balancer := if s.control == -1 then Head else WaitDone(r, since))
    case Head => if s.control == 0 then s else s.(balancer := HeadAgain)
    case HeadAgain => s.(balancer := if s.control == -1 then Exited else Sample)
    case Sample => if c.Go? && s.num <= |s.slots| then s.(balancer := Scan(0, s.slots[..s.num])) else s.(balancer := Head)
    case Exited => s
  }

  function MonitorStep(s: State): State {
    match s.monitor
    case Poll => if s.needs > 0 && s.num <= |s.slots| then s.(monitor := Placing(Current(s, s.needs))) else s
    case Placing(r) => s.(monitor := Clearing(r), served := s.served + [r])
    case Clearing(_) => s.(needs := 0, monitor := Poll)
  }

  /** `split`: the control word is read in one step and written in a later one, as in the source. */
  function ListenerStep(s: State, another: bool, split: bool): State {
    match s.listener
    case Idle => s.(listener := if another then Updating else Deciding, updatingPids := another)
    case Updating => s.(updatingPids := false, listener := if another then Idle else Deciding)
    case Deciding =>
      if s.control != 0 then s.(listener := Idle)
      else if split then s.(listener := Writing)
      else s.(control := 1, listener := Idle)
    case Writing => s.(control := 1, listener := Idle)
  }

  function Step(s: State, e: Event, split: bool): State {
    match e
    case Balancer(c) => BalancerStep(s, c)
    case Monitor => MonitorStep(s)
    case Listener(another) => ListenerStep(s, another, split)
    case Signal => s.(control := -1)
  }

  function After(s: State, es: seq<Event>, split: bool): State {
    if |es| == 0 then s else Step(After(s, es[..|es| - 1], split), es[|es| - 1], split)
  }

  function Run(es: seq<Event>, split: bool): State { After(Initial(), es, split) }

  lemma {:induction false} AfterConcat(s: State, a: seq<Event>, b: seq<Event>, split: bool)
    ensures After(s, a + b, split) == After(After(s, a, split), b, split)
  {
    if |b| > 0 {
      AfterConcat(s, a, b[..|b| - 1], split);
      assert (a + b)[..|a + b| - 1] == a + b[..|b| - 1];
    } else {
      assert a + b == a;
    }
  }

  /** The Listener is about to overwrite a stop request. */
  predicate Overwrites(s: State, e: Event) {
    e.Listener? && s.listener.Writing? && s.control == -1
  }

  /** No stop request is overwritten in a state that is `bad`. */
  predicate NoOverwriteIn(bad: State -> bool, s: State, es: seq<Event>, split: bool) {
    |es| == 0 ||
    var t := After(s, es[..|es| - 1], split);
    NoOverwriteIn(bad, s, es[..|es| - 1], split) && !(Overwrites(t, es[|es| - 1]) && bad(t))
  }

  predicate Any(s: State) { true }

  /** A request was given up with its flag raised. */
  predicate GivenUp(s: State) {
    s.needs > 0 && (s.balancer.Head? || s.balancer.HeadAgain?)
  }

  // The invariant

  predicate Asking(b: BalancerAt) { b.WaitPids? || b.CheckPids? || b.Raise? || b.WaitDone? || b.CheckDone? }

  predicate Waiting(b: BalancerAt) { b.WaitDone? || b.CheckDone? }

  /** The Balancer has been stopped and is on its way out. */
  predicate Leaving(s: State) {
    s.balancer.Exited? || (s.control == -1 && (s.balancer.Head? || s.balancer.HeadAgain?))
  }

  predicate Shape(s: State) {
    && |s.slots| == SLOTS && s.num <= SLOTS && s.needs >= 0
    && (s.balancer.Scan? ==> s.balancer.pos <= SLOTS)
    && (Asking(s.balancer) ==> s.balancer.req == Current(s, s.balancer.req.action) && s.balancer.req.action > 0)
    && (s.updatingPids <==> s.listener.Updating?)
  }

  /** A raised flag is the pending request's, or one that the Balancer has left behind. */
  predicate FlagOk(s: State) {
    && (s.needs > 0 ==> (Waiting(s.balancer) && s.needs == s.balancer.req.action) || Leaving(s))
    && (!s.monitor.Poll? ==> s.needs > 0 && |s.slots| >= s.num && s.monitor.req == Current(s, s.needs))
  }

  predicate Calm(s: State) { Shape(s) && FlagOk(s) }

  /** What `twopa` has done for the request waited for. */
  function Ahead(s: State): seq<Request> {
    if Waiting(s.balancer) && (s.needs == 0 || s.monitor.Clearing?) then [s.balancer.req] else []
  }

  /** Each request that returned was served in its wait, by exactly one run over exactly its list; the waits are in order. */
  ghost predicate Matched(s: State) {
    && |s.spans| == |s.acked|
    && (forall k :: 0 <= k < |s.spans| ==>
          s.spans[k].from <= s.spans[k].to <= |s.served| && s.served[s.spans[k].from..s.spans[k].to] == [s.acked[k]])
    && (forall j, k :: 0 <= j < k < |s.spans| ==> s.spans[j].to <= s.spans[k].from)
  }

  /** The wait in progress comes after the others, and has seen the run it waits for or none. */
  ghost predicate WaitOk(s: State) {
    Waiting(s.balancer) ==>
      && s.balancer.since <= |s.served| && s.served[s.balancer.since..] == Ahead(s)
      && forall k :: 0 <= k < |s.spans| ==> s.spans[k].to <= s.balancer.since
  }

  /** One run more than was acknowledged: the one that the Balancer did not wait for. */
  predicate LeftBehind(s: State) {
    && |s.served| == |s.acked| + 1 && s.served[..|s.acked|] == s.acked
    && s.num <= |s.slots| && s.served[|s.acked|].list == s.slots[..s.num]
    && (s.monitor.Clearing? || s.needs == 0)
  }

  /** How far the runs of `twopa` are ahead of the acknowledged requests while no stop is overwritten. */
  predicate LogsOk(s: State) {
    s.served == s.acked + Ahead(s) || (Leaving(s) && LeftBehind(s))
  }

  lemma ScanCalm(s: State, c: Choice)
    requires Calm(s) && (s.balancer.Scan? || s.balancer.FirstScan?)
    ensures Calm(BalancerStep(s, c))
  {}

  lemma AskCalm(s: State, c: Choice)
    requires Calm(s) && Asking(s.balancer)
    ensures Calm(BalancerStep(s, c))
  {}

  lemma LoopCalm(s: State, c: Choice)
    requires Calm(s) && !Asking(s.balancer) && !s.balancer.Scan? && !s.balancer.FirstScan?
    ensures Calm(BalancerStep(s, c))
  {}

  lemma BalancerCalm(s: State, c: Choice)
    requires Calm(s)
    ensures Calm(BalancerStep(s, c))
  {
    hide Calm, BalancerStep;
    if s.balancer.Scan? || s.balancer.FirstScan? {
      ScanCalm(s, c);
    } else if Asking(s.balancer) {
      AskCalm(s, c);
    } else {
      LoopCalm(s, c);
    }
  }

  lemma MonitorCalm(s: State)
    requires Calm(s)
    ensures Calm(MonitorStep(s))
  {}

  lemma ListenerCalm(s: State, another: bool, split: bool)
    requires Calm(s) && !(Overwrites(s, Listener(another)) && GivenUp(s))
    ensures Calm(ListenerStep(s, another, split))
  {}

  lemma CalmStep(s: State, e: Event, split: bool)
    requires Calm(s) && !(Overwrites(s, e) && GivenUp(s))
    ensures Calm(Step(s, e, split))
  {
    hide BalancerStep, MonitorStep, ListenerStep;
    match e {
      case Balancer(c) => BalancerCalm(s, c);
      case Monitor => MonitorCalm(s);
      case Listener(another) => ListenerCalm(s, another, split);
      case Signal =>
    }
  }

  /** A request that returns has been served, once. */
  lemma AckSpans(s: State, c: Choice)
    requires Calm(s) && Matched(s) && WaitOk(s) && s.balancer.WaitDone? && s.needs != s.balancer.req.action
    ensures Matched(BalancerStep(s, c)) && WaitOk(BalancerStep(s, c))
  {
    var since, t := s.balancer.since, BalancerStep(s, c);
    assert s.needs == 0 && Ahead(s) == [s.balancer.req];
    assert s.served[since..|s.served|] == s.served[since..];
    assert forall k :: 0 <= k < |s.spans| ==> t.spans[k] == s.spans[k] && t.acked[k] == s.acked[k];
  }

  /** The logs depend on these parts only. */
  lemma SpansFrame(s: State, t: State)
    requires Matched(s) && t.served == s.served && t.acked == s.acked && t.spans == s.spans
    ensures Matched(t)
  {}

  lemma NoAck(s: State, c: Choice)
    requires !(s.balancer.WaitDone? && s.needs != s.balancer.req.action)
    ensures var t := BalancerStep(s, c);
            t.served == s.served && t.acked == s.acked && t.spans == s.spans && t.monitor == s.monitor
  {}

  lemma BalancerSpans(s: State, c: Choice)
    requires Calm(s) && Matched(s) && WaitOk(s)
    ensures Matched(BalancerStep(s, c)) && WaitOk(BalancerStep(s, c))
  {
    var t := BalancerStep(s, c);
    if s.balancer.WaitDone? && s.needs != s.balancer.req.action {
      AckSpans(s, c);
    } else {
      NoAck(s, c);
      SpansFrame(s, t);
      if Waiting(t.balancer) {
        assert Waiting(s.balancer) ==> t == s.(balancer := t.balancer) && t.balancer.since == s.balancer.since && t.balancer.req == s.balancer.req;
        assert !Waiting(s.balancer) ==> s.needs == 0 && s.monitor.Poll? && t.balancer.since == |s.served|;
      }
    }
  }

  lemma ServedMore(s: State, r: Request)
    requires Matched(s)
    ensures Matched(s.(served := s.served + [r]))
  {
    var t := s.(served := s.served + [r]);
    forall k | 0 <= k < |s.spans|
      ensures t.served[s.spans[k].from..s.spans[k].to] == s.served[s.spans[k].from..s.spans[k].to]
    {}
  }

  lemma MonitorSpans(s: State)
    requires Calm(s) && Matched(s) && WaitOk(s)
    ensures Matched(MonitorStep(s)) && WaitOk(MonitorStep(s))
  {
    var t := MonitorStep(s);
    if s.monitor.Placing? {
      ServedMore(s, s.monitor.req);
      hide Matched;
      SpansFrame(s.(served := s.served + [s.monitor.req]), t);
    } else {
      SpansFrame(s, t);
    }
  }

  lemma SpansStep(s: State, e: Event, split: bool)
    requires Calm(s) && Matched(s) && WaitOk(s)
    ensures Matched(Step(s, e, split)) && WaitOk(Step(s, e, split))
  {
    hide BalancerStep, MonitorStep;
    match e {
      case Balancer(c) => BalancerSpans(s, c);
      case Monitor => MonitorSpans(s);
      case _ =>
    }
  }

  ghost predicate Sound(s: State) { Calm(s) && Matched(s) && WaitOk(s) }

  lemma InitialSound()
    ensures Sound(Initial())
  {}

  lemma {:induction false} SoundAfter(s: State, es: seq<Event>, split: bool)
    requires Sound(s) && NoOverwriteIn(GivenUp, s, es, split)
    ensures Sound(After(s, es, split))
  {
    hide Calm, Matched, WaitOk, Step;
    if |es| > 0 {
      var t, e := After(s, es[..|es| - 1], split), es[|es| - 1];
      SoundAfter(s, es[..|es| - 1], split);
      assert GivenUp(t) == (t.needs > 0 && (t.balancer.Head? || t.balancer.HeadAgain?));
      CalmStep(t, e, split);
      SpansStep(t, e, split);
    }
  }

  lemma Reachable(es: seq<Event>, split: bool)
    requires NoOverwriteIn(GivenUp, Initial(), es, split)
    ensures Sound(Run(es, split))
  {
    InitialSound();
    SoundAfter(Initial(), es, split);
  }

  // What the handshake gives

  /** While `twopa` runs, the flag and the published list are the ones it started with. */
  predicate Stable(s: State) {
    s.monitor.Placing? ==> s.num <= |s.slots| && s.monitor.req == Request(s.needs, s.slots[..s.num])
  }

  /** No step of any thread changes what a running `twopa` reads. */
  lemma NothingMovesUnderTwopa(es: seq<Event>, e: Event, split: bool)
    requires NoOverwriteIn(GivenUp, Initial(), es, split) && !(Overwrites(Run(es, split), e) && GivenUp(Run(es, split)))
    ensures var s, t := Run(es, split), Step(Run(es, split), e, split);
            s.monitor.Placing? ==> t.slots == s.slots && t.num == s.num && t.needs == s.needs
  {
    Reachable(es, split);
    hide Matched, WaitOk;
  }

  /**
   Every request that returned without having seen the stop signal was served in
   its wait, by exactly one run of `twopa` over exactly the list published for it,
   in every run that overwrites no stop request while a request is given up.
   */
  lemma AcknowledgedMeansServed(es: seq<Event>, split: bool)
    requires NoOverwriteIn(GivenUp, Initial(), es, split)
    ensures Stable(Run(es, split)) && Matched(Run(es, split))
  {
    Reachable(es, split);
    hide Matched, WaitOk;
  }

  // Runs that overwrite no stop request

  lemma AskLogs(s: State, c: Choice)
    requires Calm(s) && LogsOk(s) && Asking(s.balancer)
    ensures LogsOk(BalancerStep(s, c))
  {}

  lemma OtherLogs(s: State, c: Choice)
    requires Calm(s) && LogsOk(s) && !Asking(s.balancer)
    ensures LogsOk(BalancerStep(s, c))
  {
    if s.balancer.Start? || s.balancer.FirstScan? || s.balancer.Scan? || s.balancer.Sample? {
      assert !Leaving(s) && s.served == s.acked;
    }
  }

  lemma BalancerLogs(s: State, c: Choice)
    requires Calm(s) && LogsOk(s)
    ensures LogsOk(BalancerStep(s, c))
  {
    hide Calm, LogsOk, BalancerStep;
    if Asking(s.balancer) {
      AskLogs(s, c);
    } else {
      OtherLogs(s, c);
    }
  }

  lemma MonitorLogs(s: State)
    requires Calm(s) && LogsOk(s)
    ensures LogsOk(MonitorStep(s))
  {}

  lemma ControlLogs(s: State, e: Event, split: bool)
    requires LogsOk(s) && !Overwrites(s, e) && (e.Listener? || e.Signal?)
    ensures LogsOk(Step(s, e, split))
  {
    var t := Step(s, e, split);
    hide BalancerStep, MonitorStep;
    assert t == s.(control := t.control, updatingPids := t.updatingPids, listener := t.listener);
    assert s.control == -1 ==> t.control == -1;
    hide Step, ListenerStep;
    assert Ahead(t) == Ahead(s);
  }

  lemma LogsStep(s: State, e: Event, split: bool)
    requires Calm(s) && LogsOk(s) && !Overwrites(s, e)
    ensures LogsOk(Step(s, e, split))
  {
    hide Calm, LogsOk, BalancerStep, MonitorStep;
    match e {
      case Balancer(c) => BalancerLogs(s, c);
      case Monitor => MonitorLogs(s);
      case _ => ControlLogs(s, e, split);
    }
  }

  lemma {:induction false} FewerBad(bad: State -> bool, worse: State -> bool, s: State, es: seq<Event>, split: bool)
    requires NoOverwriteIn(bad, s, es, split) && forall t :: worse(t) ==> bad(t)
    ensures NoOverwriteIn(worse, s, es, split)
  {
    if |es| > 0 {
      FewerBad(bad, worse, s, es[..|es| - 1], split);
    }
  }

  lemma {:induction false} LogsAfter(es: seq<Event>, split: bool)
    requires NoOverwriteIn(Any, Initial(), es, split)
    ensures LogsOk(Run(es, split))
  {
    if |es| > 0 {
      var before := es[..|es| - 1];
      LogsAfter(before, split);
      FewerBad(Any, GivenUp, Initial(), before, split);
      Reachable(before, split);
      assert Any(Run(before, split));
      hide LogsOk, Matched, WaitOk, Step, Calm;
      LogsStep(Run(before, split), es[|es| - 1], split);
    }
  }

  /** If no stop request is overwritten at all, acknowledgements and runs of `twopa` agree one to one, a last run apart. */
  lemma AheadByOneAtMost(es: seq<Event>, split: bool)
    requires NoOverwriteIn(Any, Initial(), es, split)
    ensures var s := Run(es, split);
            && |s.acked| <= |s.served| <= |s.acked| + 1 && s.served[..|s.acked|] == s.acked
            && (|s.served| > |s.acked| && Waiting(s.balancer) ==> s.served[|s.acked|] == s.balancer.req)
  {
    LogsAfter(es, split);
  }

  lemma NeverWriting(s: State, e: Event)
    requires !s.listener.Writing?
    ensures !Step(s, e, false).listener.Writing?
  {}

  /** With the control word read and set in one step, no run overwrites a stop request. */
  lemma {:induction false} AtomicIsCareful(es: seq<Event>)
    ensures NoOverwriteIn(Any, Initial(), es, false) && !Run(es, false).listener.Writing?
  {
    hide Step;
    if |es| > 0 {
      AtomicIsCareful(es[..|es| - 1]);
      NeverWriting(Run(es[..|es| - 1], false), es[|es| - 1]);
    }
  }

  // Before the start

  /** While the Balancer is paused, only the Listener has done anything. */
  predicate Untouched(s: State) {
    s == Initial().(listener := s.listener, updatingPids := s.updatingPids)
  }

  lemma PausedStep(s: State, e: Event, split: bool)
    requires s.control == 0 ==> Untouched(s)
    ensures Step(s, e, split).control == 0 ==> Untouched(Step(s, e, split))
  {}

  /**
   In every run, whatever is overwritten: until the Listener or a stop signal has
   set the control word, the Balancer waits at its start, no flag is raised,
   nothing is listed, acknowledged or served.
   */
  lemma {:induction false} PausedWaits(es: seq<Event>, split: bool)
    requires Run(es, split).control == 0
    ensures Untouched(Run(es, split))
  {
    if |es| > 0 {
      var s := Run(es[..|es| - 1], split);
      if s.control == 0 {
        PausedWaits(es[..|es| - 1], split);
      }
      hide Untouched;
      PausedStep(s, es[|es| - 1], split);
    }
  }

  // While the Listener looks through a container

  /** The Balancer holds a request back, or has been stopped with it. */
  predicate HeldBack(s: State, r: Request, needs: int) {
    && s.updatingPids && (s.needs == needs || s.needs == 0)
    && (|| s.balancer == WaitPids(r) || s.balancer == CheckPids(r)
        || (s.control == -1 && (s.balancer.Head? || s.balancer.HeadAgain? || s.balancer.Exited?)))
  }

  /** With `updatingPids` up and the Listener not moving on, a request is not raised, whatever the others do. */
  lemma {:induction false} HoldsBack(s: State, es: seq<Event>, r: Request, split: bool)
    requires s.updatingPids && s.balancer == WaitPids(r) && forall e | e in es :: !e.Listener?
    ensures HeldBack(After(s, es, split), r, s.needs)
  {
    if |es| > 0 {
      var e := es[|es| - 1];
      assert e in es;
      HoldsBack(s, es[..|es| - 1], r, split);
    }
  }

  // After a stop

  lemma StopStaysStep(s: State, e: Event, split: bool)
    requires s.control == -1 && !s.listener.Writing?
    ensures Step(s, e, split).control == -1 && !Step(s, e, split).listener.Writing?
  {}

  /** A stop that arrives while the Listener is not between its reading and its writing is never lost. */
  lemma {:induction false} StopStays(s: State, es: seq<Event>, split: bool)
    requires s.control == -1 && !s.listener.Writing?
    ensures After(s, es, split).control == -1 && !After(s, es, split).listener.Writing?
  {
    if |es| > 0 {
      hide Step;
      StopStays(s, es[..|es| - 1], split);
      StopStaysStep(After(s, es[..|es| - 1], split), es[|es| - 1], split);
    }
  }

  /** The Listener starts a Balancer only once: what it is about to overwrite is a paused word, or a stop that came since it read one. */
  lemma {:induction false} StartsOnce(es: seq<Event>, split: bool)
    ensures Run(es, split).listener.Writing? ==> Run(es, split).control != 1
  {
    if |es| > 0 {
      StartsOnce(es[..|es| - 1], split);
    }
  }

  predicate InRange(s: State) {
    s.num <= |s.slots| && (s.balancer.Scan? ==> s.balancer.pos <= |s.slots|)
  }

  /** How many of its own steps a stopped Balancer is away from its end, at most, once its scan lists no more cores. */
  function Distance(b: BalancerAt): nat {
    match b
    case Exited => 0
    case HeadAgain => 1
    case Head => 2
    case CheckDone(_, _) => 3
    case CheckPids(_) => 3
    case WaitDone(_, _) => 4
    case Raise(_) => 5
    case WaitPids(_) => 6
    case FirstScan => 7
    case Scan(_, _) => 7
    case Sample => 8
    case Start => 8
  }

  function OwnSteps(es: seq<Event>): nat {
    if |es| == 0 then 0 else OwnSteps(es[..|es| - 1]) + if es[|es| - 1].Balancer? then 1 else 0
  }

  lemma StoppedStep(s: State, e: Event, split: bool)
    requires InRange(s) && s.control == -1 && !Overwrites(s, e) && (e.Balancer? ==> e.choice.Go?)
    ensures var t := Step(s, e, split);
            && InRange(t) && t.control == -1
            && Distance(t.balancer) <= Distance(s.balancer)
            && (e.Balancer? && !s.balancer.Exited? ==> Distance(t.balancer) < Distance(s.balancer))
            && (s.balancer.Exited? ==> t.balancer.Exited?)
  {}

  lemma RangeKept(s: State, e: Event, split: bool)
    requires InRange(s)
    ensures InRange(Step(s, e, split))
  {}

  lemma {:induction false} RangeReachable(es: seq<Event>, split: bool)
    ensures InRange(Run(es, split))
  {
    if |es| > 0 {
      hide InRange, Step;
      RangeReachable(es[..|es| - 1], split);
      RangeKept(Run(es[..|es| - 1], split), es[|es| - 1], split);
    }
  }

  lemma {:induction false} StoppedAfter(s: State, es: seq<Event>, split: bool)
    requires InRange(s) && s.control == -1 && NoOverwriteIn(Any, s, es, split)
    requires forall e | e in es && e.Balancer? :: e.choice.Go?
    ensures var t := After(s, es, split);
            InRange(t) && t.control == -1 && (t.balancer.Exited? || Distance(t.balancer) + OwnSteps(es) <= Distance(s.balancer))
  {
    if |es| > 0 {
      hide InRange, Step, Distance;
      assert es[|es| - 1] in es;
      StoppedAfter(s, es[..|es| - 1], split);
      assert forall t :: Any(t);
      StoppedStep(After(s, es[..|es| - 1], split), es[|es| - 1], split);
    }
  }

  /**
   From wherever a stop finds it in a run, the Balancer ends within eight of its own
   steps, once its scan lists no more cores, whatever the other threads do in
   between: no wait for them holds it.
   */
  lemma StopEnds(es: seq<Event>, more: seq<Event>, split: bool)
    requires Run(es, split).control == -1 && NoOverwriteIn(Any, Run(es, split), more, split)
    requires OwnSteps(more) >= 8 && forall e | e in more && e.Balancer? :: e.choice.Go?
    ensures Run(es + more, split).balancer.Exited?
  {
    RangeReachable(es, split);
    StoppedAfter(Run(es, split), more, split);
    AfterConcat(Initial(), es, more, split);
  }
}
