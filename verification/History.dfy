/**
 What a Primary's samples come to over a whole run: the controller of
 Balancer/main.c as a function of the idle counts and times sampled so far, with
 no counter, flag or running average.
 */
module History {
  import opened Selection
  import opened Controller
  import opened Harvester

  /** What one sample shows of a Primary. */
  datatype Sample = Sample(idle: nat, elapsed: nat)

  /** The time that samples from..to cover. */
  function Total(ss: seq<Sample>, from: nat, to: nat): nat
    requires from <= to <= |ss|
  {
    if from == to then 0 else Total(ss, from, to - 1) + ss[to - 1].elapsed
  }

  /** The part of it after a sample without an idle core (or at the very start), or all of it if `before` is one core. */
  function LowTotal(ss: seq<Sample>, from: nat, to: nat, before: int): nat
    requires from <= to <= |ss|
  {
    if from == to then 0
    else LowTotal(ss, from, to - 1, before)
         + if to == 1 || ss[to - 2].idle == 0 || before == 1 then ss[to - 1].elapsed else 0
  }

  function Last(ends: seq<nat>): nat { if ends == [] then 0 else ends[|ends| - 1] }

  /** Where windows end: at the first sample with which they are long enough. */
  function Ends(ss: seq<Sample>): (ends: seq<nat>)
    ensures Last(ends) <= |ss|
  {
    if |ss| == 0 then []
    else
      var ends := Ends(ss[..|ss| - 1]);
      if Total(ss, Last(ends), |ss|) >= IDLEACTIVE_SAMPLE_RATE then ends + [|ss|] else ends
  }

  // The rule for the target, from the windows' numbers

  /** The weighted sum of the windows, over the length of the last one, is above the level. */
  predicate Exceeds(ws: seq<Window>, level: real)
    requires |ws| > 0
  {
    GeometricSum(ws, 0) > level * ws[|ws| - 1].elapsed as real
  }

  /** How many windows have been waited out since the target fell; ten before it first does. */
  function Waited(ws: seq<Window>, threshold: real): (n: nat)
    ensures n <= 10
  {
    if |ws| == 0 then 10
    else
      var n := Waited(ws[..|ws| - 1], threshold);
      if Exceeds(ws, threshold) then n
      else if n == 10 || (n == 0 && !Exceeds(ws, 0.66 * threshold)) then 0
      else n + 1
  }

  /** The last window lets the target fall: ten waited out, or none yet and the sum below the error band. */
  predicate Falls(ws: seq<Window>, threshold: real)
    requires |ws| > 0
  {
    var n := Waited(ws[..|ws| - 1], threshold);
    !Exceeds(ws, threshold) && (n == 10 || (n == 0 && !Exceeds(ws, 0.66 * threshold)))
  }

  /** The target that a registration has come to. */
  function TargetOf(ws: seq<Window>, r: PrimaryCtr, lowTic: int): int {
    if |ws| == 0 then r.targetIdleCores
    else
      var t := TargetOf(ws[..|ws| - 1], r, lowTic);
      if Exceeds(ws, r.lowIdleFreqThreshold) then Min(t + 1, r.staticTargetIdleCores)
      else if Falls(ws, r.lowIdleFreqThreshold) then Max(t - 1, lowTic)
      else t
  }

  /** The target before the last window that was not waited out, 0 before there is one. */
  function TargetBefore(ws: seq<Window>, r: PrimaryCtr, lowTic: int): int {
    if |ws| == 0 then 0
    else if Exceeds(ws, r.lowIdleFreqThreshold) || Falls(ws, r.lowIdleFreqThreshold) then TargetOf(ws[..|ws| - 1], r, lowTic)
    else TargetBefore(ws[..|ws| - 1], r, lowTic)
  }

  // One Primary's records as functions of its samples

  function From(ss: seq<Sample>, k: nat): (p: nat)
    requires k <= |Ends(ss)|
  {
    if k == 0 then 0 else Ends(ss)[k - 1]
  }

  /** Window k covers the samples it should, and led to the target it should. */
  ghost predicate WindowOk(ws: seq<Window>, r: PrimaryCtr, ss: seq<Sample>, lowTic: int, k: nat)
    requires k < |ws| == |Ends(ss)|
  {
    && From(ss, k) <= Ends(ss)[k] <= |ss|
    && ws[k].elapsed == Total(ss, From(ss, k), Ends(ss)[k])
    && ws[k].lowIdleFreq == LowTotal(ss, From(ss, k), Ends(ss)[k], TargetBefore(ws[..k], r, lowTic)) as real
    && ws[k].target == TargetOf(ws[..k + 1], r, lowTic)
  }

  ghost predicate WindowsOk(ws: seq<Window>, r: PrimaryCtr, ss: seq<Sample>, lowTic: int) {
    |ws| == |Ends(ss)| && forall k :: 0 <= k < |ws| ==> WindowOk(ws, r, ss, lowTic, k)
  }

  /** The shared record: the registration, with the target that the windows led to. */
  ghost predicate CtrTracks(ci: PrimaryCtr, ws: seq<Window>, r: PrimaryCtr, lowTic: int) {
    var target := TargetOf(ws, r, lowTic);
    ci == r.(targetIdleCores := target,
             maxSecondaryCores := if ws == [] then r.maxSecondaryCores else r.totalEligibleCores - target)
  }

  /** The private record: the samples since the last window, and the counter and flag that `Waited` stands for. */
  ghost predicate InfoTracks(bi: BalancerInfo, r: PrimaryCtr, ss: seq<Sample>, lowTic: int) {
    var from, n := Last(Ends(ss)), Waited(bi.windows, r.lowIdleFreqThreshold);
    && bi.idleCoresCount == (if ss == [] then 0 else ss[|ss| - 1].idle)
    && bi.prevTargetIdleCores == TargetBefore(bi.windows, r, lowTic)
    && bi.sampleTimeElapsed == Total(ss, from, |ss|) < IDLEACTIVE_SAMPLE_RATE
    && bi.lowIdleFreq == LowTotal(ss, from, |ss|, bi.prevTargetIdleCores) as real
    && bi.deficits == GeometricSum(bi.windows, 0)
    && n == Min(bi.surplusEvts, 10) && (bi.withinErrorFlag <==> 0 < bi.surplusEvts <= 10)
  }

  ghost predicate Tracks(ci: PrimaryCtr, bi: BalancerInfo, r: PrimaryCtr, ss: seq<Sample>, lowTic: int) {
    WindowsOk(bi.windows, r, ss, lowTic) && CtrTracks(ci, bi.windows, r, lowTic) && InfoTracks(bi, r, ss, lowTic)
  }

  // Appending a sample

  lemma {:induction false} TotalFrame(ss: seq<Sample>, x: Sample, from: nat, to: nat)
    requires from <= to <= |ss|
    ensures Total(ss + [x], from, to) == Total(ss, from, to)
  {
    if from < to {
      TotalFrame(ss, x, from, to - 1);
    }
  }

  lemma {:induction false} LowTotalFrame(ss: seq<Sample>, x: Sample, from: nat, to: nat, before: int)
    requires from <= to <= |ss|
    ensures LowTotal(ss + [x], from, to, before) == LowTotal(ss, from, to, before)
  {
    if from < to {
      LowTotalFrame(ss, x, from, to - 1, before);
    }
  }

  lemma PushSample(ss: seq<Sample>, x: Sample, before: int)
    ensures var from := Last(Ends(ss));
            && Total(ss + [x], from, |ss| + 1) == Total(ss, from, |ss|) + x.elapsed
            && LowTotal(ss + [x], from, |ss| + 1, before)
               == LowTotal(ss, from, |ss|, before) + (if ss == [] || ss[|ss| - 1].idle == 0 || before == 1 then x.elapsed else 0)
            && Ends(ss + [x]) == if Total(ss + [x], from, |ss| + 1) >= IDLEACTIVE_SAMPLE_RATE then Ends(ss) + [|ss| + 1] else Ends(ss)
  {
    var from := Last(Ends(ss));
    assert (ss + [x])[..|ss|] == ss;
    TotalFrame(ss, x, from, |ss|);
    LowTotalFrame(ss, x, from, |ss|, before);
  }

  /** The windows there are stay as they are. */
  lemma OldWindows(ws: seq<Window>, more: seq<Window>, r: PrimaryCtr, ss: seq<Sample>, x: Sample, lowTic: int, k: nat)
    requires WindowsOk(ws, r, ss, lowTic) && k < |ws| && |Ends(ss + [x])| == |ws + more|
    requires Ends(ss) == Ends(ss + [x])[..|ws|]
    ensures WindowOk(ws + more, r, ss + [x], lowTic, k)
  {
    assert WindowOk(ws, r, ss, lowTic, k);
    assert (ws + more)[..k] == ws[..k] && (ws + more)[..k + 1] == ws[..k + 1];
    var from, to := From(ss, k), Ends(ss)[k];
    assert Ends(ss + [x])[k] == to && From(ss + [x], k) == from;
    TotalFrame(ss, x, from, to);
    LowTotalFrame(ss, x, from, to, TargetBefore(ws[..k], r, lowTic));
  }

  lemma RateAbove(sum: real, elapsed: real, level: real)
    requires elapsed > 0.0
    ensures sum / elapsed > level <==> sum > level * elapsed
  {
    assert sum == (sum / elapsed) * elapsed;
    if sum / elapsed > level {
      assert (sum / elapsed - level) * elapsed > 0.0;
    } else {
      assert (level - sum / elapsed) * elapsed >= 0.0;
    }
  }

  /** What a window's move is called in the code, and what it is by the numbers. */
  lemma MoveByNumbers(ci: PrimaryCtr, bi: BalancerInfo, r: PrimaryCtr, w: Window)
    requires bi.sampleTimeElapsed > 0 && bi.deficits == GeometricSum(bi.windows, 0)
    requires ci.lowIdleFreqThreshold == r.lowIdleFreqThreshold && w.lowIdleFreq == bi.lowIdleFreq && w.elapsed == bi.sampleTimeElapsed
    requires Waited(bi.windows, r.lowIdleFreqThreshold) == Min(bi.surplusEvts, 10) && (bi.withinErrorFlag <==> 0 < bi.surplusEvts <= 10)
    ensures var ws, m := bi.windows + [w], MoveOf(ci, bi);
            && GeometricSum(ws, 0) == NewDeficits(bi)
            && (m.Raise? <==> Exceeds(ws, r.lowIdleFreqThreshold))
            && (m.Wait? <==> !Exceeds(ws, r.lowIdleFreqThreshold) && !Falls(ws, r.lowIdleFreqThreshold))
            && Waited(ws, r.lowIdleFreqThreshold)
               == if m.Raise? then Waited(bi.windows, r.lowIdleFreqThreshold)
                  else if m.Wait? then Waited(bi.windows, r.lowIdleFreqThreshold) + 1 else 0
  {
    var ws, thr := bi.windows + [w], r.lowIdleFreqThreshold;
    PushWindow(bi.windows, w);
    assert ws[..|ws| - 1] == bi.windows;
    RateAbove(NewDeficits(bi), bi.sampleTimeElapsed as real, thr);
    RateAbove(NewDeficits(bi), bi.sampleTimeElapsed as real, 0.66 * thr);
  }

  lemma AdjustTracks(ci: PrimaryCtr, bi: BalancerInfo, r: PrimaryCtr, lowTic: int)
    requires bi.sampleTimeElapsed > 0 && bi.deficits == GeometricSum(bi.windows, 0)
    requires CtrTracks(ci, bi.windows, r, lowTic) && bi.prevTargetIdleCores == TargetBefore(bi.windows, r, lowTic)
    requires Waited(bi.windows, r.lowIdleFreqThreshold) == Min(bi.surplusEvts, 10) && (bi.withinErrorFlag <==> 0 < bi.surplusEvts <= 10)
    ensures var ci', bi' := AdjustedCtr(ci, bi, lowTic), AdjustedInfo(ci, bi, lowTic);
            && bi'.windows == bi.windows + [Window(bi.lowIdleFreq, bi.sampleTimeElapsed, TargetOf(bi'.windows, r, lowTic))]
            && CtrTracks(ci', bi'.windows, r, lowTic)
            && bi'.prevTargetIdleCores == TargetBefore(bi'.windows, r, lowTic)
            && bi'.deficits == GeometricSum(bi'.windows, 0)
            && Waited(bi'.windows, r.lowIdleFreqThreshold) == Min(bi'.surplusEvts, 10)
            && (bi'.withinErrorFlag <==> 0 < bi'.surplusEvts <= 10)
  {
    var w := Window(bi.lowIdleFreq, bi.sampleTimeElapsed, MovedTarget(ci, MoveOf(ci, bi), lowTic));
    assert (bi.windows + [w])[..|bi.windows|] == bi.windows;
    MoveByNumbers(ci, bi, r, w);
    hide Exceeds, GeometricSum, Waited;
  }

  /** A sample that closes no window. */
  lemma SampleTracks(ci: PrimaryCtr, bi: BalancerInfo, r: PrimaryCtr, ss: seq<Sample>, active: set<int>, dt: nat, lowTic: int)
    requires Tracks(ci, bi, r, ss, lowTic)
    requires Ends(ss + [Sample(CountIdle(ci.cpuList, active), dt)]) == Ends(ss)
    ensures !WindowCloses(Sampled(ci, bi, active, dt))
    ensures Tracks(ci, Sampled(ci, bi, active, dt), r, ss + [Sample(CountIdle(ci.cpuList, active), dt)], lowTic)
  {
    var x, s := Sample(CountIdle(ci.cpuList, active), dt), Sampled(ci, bi, active, dt);
    PushSample(ss, x, bi.prevTargetIdleCores);
    forall k | 0 <= k < |bi.windows| ensures WindowOk(bi.windows, r, ss + [x], lowTic, k) {
      assert bi.windows + [] == bi.windows;
      OldWindows(bi.windows, [], r, ss, x, lowTic, k);
    }
  }

  /** The windows after one that closes with sample x. */
  lemma NewWindow(ws: seq<Window>, w: Window, r: PrimaryCtr, ss: seq<Sample>, x: Sample, lowTic: int)
    requires WindowsOk(ws, r, ss, lowTic) && Ends(ss + [x]) == Ends(ss) + [|ss| + 1]
    requires w.elapsed == Total(ss + [x], Last(Ends(ss)), |ss| + 1)
    requires w.lowIdleFreq == LowTotal(ss + [x], Last(Ends(ss)), |ss| + 1, TargetBefore(ws, r, lowTic)) as real
    requires w.target == TargetOf(ws + [w], r, lowTic)
    ensures WindowsOk(ws + [w], r, ss + [x], lowTic)
  {
    forall k | 0 <= k < |ws + [w]| ensures WindowOk(ws + [w], r, ss + [x], lowTic, k) {
      if k < |ws| {
        OldWindows(ws, [w], r, ss, x, lowTic, k);
      } else {
        assert (ws + [w])[..k] == ws && (ws + [w])[..k + 1] == ws + [w];
      }
    }
  }

  /** A sample that closes a window. */
  lemma CloseTracks(ci: PrimaryCtr, bi: BalancerInfo, r: PrimaryCtr, ss: seq<Sample>, active: set<int>, dt: nat, lowTic: int)
    requires Tracks(ci, bi, r, ss, lowTic) && InfoOk(bi)
    requires Ends(ss + [Sample(CountIdle(ci.cpuList, active), dt)]) != Ends(ss)
    ensures WindowCloses(Sampled(ci, bi, active, dt))
    ensures Tracks(EvaluatedCtr(ci, bi, active, dt, lowTic), Tuned(ci, bi, active, dt, lowTic), r,
                   ss + [Sample(CountIdle(ci.cpuList, active), dt)], lowTic)
  {
    var x, s := Sample(CountIdle(ci.cpuList, active), dt), Sampled(ci, bi, active, dt);
    PushSample(ss, x, bi.prevTargetIdleCores);
    SampleKeeps(ci, bi, active, dt);
    WatchKeeps(s);
    AdjustTracks(ci, Watched(s), r, lowTic);
    var ws := AdjustedInfo(ci, Watched(s), lowTic).windows;
    hide WindowsOk, AdjustedInfo, AdjustedCtr, Watched, TargetOf, TargetBefore, Waited, GeometricSum;
    NewWindow(bi.windows, ws[|bi.windows|], r, ss, x, lowTic);
  }

  lemma EvaluateTracks(ci: PrimaryCtr, bi: BalancerInfo, r: PrimaryCtr, ss: seq<Sample>, active: set<int>, dt: nat, lowTic: int)
    requires Tracks(ci, bi, r, ss, lowTic) && InfoOk(bi)
    ensures Tracks(EvaluatedCtr(ci, bi, active, dt, lowTic), EvaluatedInfo(ci, bi, active, dt, lowTic), r,
                   ss + [Sample(CountIdle(ci.cpuList, active), dt)], lowTic)
  {
    var x, t := Sample(CountIdle(ci.cpuList, active), dt), Tuned(ci, bi, active, dt, lowTic);
    hide InfoOk;
    if Ends(ss + [x]) == Ends(ss) {
      SampleTracks(ci, bi, r, ss, active, dt, lowTic);
    } else {
      CloseTracks(ci, bi, r, ss, active, dt, lowTic);
    }
    hide WindowsOk, CtrTracks;
  }

  // Whole runs

  /** The registrations of a run, in order. */
  function Registrations(es: seq<Event>): seq<PrimaryCtr> {
    if |es| == 0 then []
    else Registrations(es[..|es| - 1]) + if es[|es| - 1].Register? then [es[|es| - 1].ctr] else []
  }

  /** A sample that the loop evaluates: between rebalances, of a mask other than the one before. */
  predicate Accepted(s: State, e: Event) {
    e.Evaluate? && !s.evaluated && e.active != s.idleMask && |s.ctrs| <= |e.elapsed|
  }

  /** What the samples of a run show of Primary i. */
  function Samples(es: seq<Event>, lowTic: int, i: nat): seq<Sample> {
    if |es| == 0 then []
    else
      var s, e := Run(es[..|es| - 1], lowTic), es[|es| - 1];
      Samples(es[..|es| - 1], lowTic, i)
      + if Accepted(s, e) && i < |s.ctrs| then [Sample(CountIdle(s.ctrs[i].cpuList, e.active), e.elapsed[i])] else []
  }

  lemma InitialTracks(r: PrimaryCtr, lowTic: int)
    ensures Tracks(r, INITIAL_INFO, r, [], lowTic)
  {}

  lemma {:induction false} NoSampleYet(es: seq<Event>, lowTic: int, i: nat)
    requires i >= |Run(es, lowTic).ctrs|
    ensures Samples(es, lowTic, i) == []
  {
    if |es| > 0 {
      NoSampleYet(es[..|es| - 1], lowTic, i);
    }
  }

  lemma StepTracks(s: State, e: Event, i: nat, r: PrimaryCtr, ss: seq<Sample>, lowTic: int)
    requires Shaped(s) && i < |s.ctrs| && Tracks(s.ctrs[i], s.infos[i], r, ss, lowTic) && InfoOk(s.infos[i])
    ensures var t := Step(s, e, lowTic);
            && i < |t.ctrs|
            && Tracks(t.ctrs[i], t.infos[i], r,
                      ss + if Accepted(s, e) then [Sample(CountIdle(s.ctrs[i].cpuList, e.active), e.elapsed[i])] else [], lowTic)
  {
    assert ss + [] == ss;
    if Accepted(s, e) {
      EvalAt(s.ctrs, s.infos, e.active, e.elapsed, lowTic, i);
      EvaluateTracks(s.ctrs[i], s.infos[i], r, ss, e.active, e.elapsed[i], lowTic);
    } else if e.Allocate? && s.evaluated && s.triggered {
      hide WindowsOk, CtrTracks;
      AllocAt(s, |s.ctrs|, i);
    }
  }

  /** In every run, every Primary's records are the function of its samples that `Tracks` says. */
  lemma {:induction false} RecordsFollowSamples(es: seq<Event>, lowTic: int, i: nat)
    requires i < |Run(es, lowTic).ctrs|
    ensures |Registrations(es)| == |Run(es, lowTic).ctrs|
    ensures var s := Run(es, lowTic); Tracks(s.ctrs[i], s.infos[i], Registrations(es)[i], Samples(es, lowTic, i), lowTic)
  {
    RegistrationsCount(es, lowTic);
    var before, e := es[..|es| - 1], es[|es| - 1];
    var s := Run(before, lowTic);
    RegistrationsCount(before, lowTic);
    if i < |s.ctrs| {
      RecordsFollowSamples(before, lowTic, i);
      HistoriesReachable(before, lowTic);
      StepTracks(s, e, i, Registrations(before)[i], Samples(before, lowTic, i), lowTic);
    } else {
      NoSampleYet(before, lowTic, i);
      InitialTracks(e.ctr, lowTic);
    }
  }

  lemma StepSize(s: State, e: Event, lowTic: int)
    requires Shaped(s)
    ensures |Step(s, e, lowTic).ctrs| == |s.ctrs| + if e.Register? then 1 else 0
  {}

  lemma {:induction false} RegistrationsCount(es: seq<Event>, lowTic: int)
    ensures |Registrations(es)| == |Run(es, lowTic).ctrs|
  {
    if |es| > 0 {
      RegistrationsCount(es[..|es| - 1], lowTic);
      StepSize(Run(es[..|es| - 1], lowTic), es[|es| - 1], lowTic);
    }
  }

  // What follows

  lemma {:induction false} EndsWithin(ss: seq<Sample>, k: nat)
    requires k <= |Ends(ss)|
    ensures From(ss, k) <= |ss|
  {
    if |ss| > 0 && k <= |Ends(ss[..|ss| - 1])| {
      EndsWithin(ss[..|ss| - 1], k);
    }
  }

  /** What one more sample changes in where windows begin and end. */
  lemma EndsPush(ss: seq<Sample>, x: Sample, k: nat)
    requires k <= |Ends(ss + [x])|
    ensures |Ends(ss)| <= |Ends(ss + [x])| <= |Ends(ss)| + 1
    ensures if k <= |Ends(ss)| then
              && From(ss + [x], k) == From(ss, k) <= |ss|
              && Total(ss + [x], From(ss, k), |ss| + 1) == Total(ss, From(ss, k), |ss|) + x.elapsed
            else From(ss + [x], k) == |ss| + 1
    ensures k < |Ends(ss)| ==> Ends(ss + [x])[k] == Ends(ss)[k] <= |ss|
    ensures k == |Ends(ss)| ==>
              (k < |Ends(ss + [x])| <==> Total(ss + [x], From(ss, k), |ss| + 1) >= IDLEACTIVE_SAMPLE_RATE)
              && (k < |Ends(ss + [x])| ==> Ends(ss + [x])[k] == |ss| + 1)
  {
    PushSample(ss, x, 0);
    if k <= |Ends(ss)| {
      EndsWithin(ss, k);
      TotalFrame(ss, x, From(ss, k), |ss|);
      if k < |Ends(ss)| {
        EndsWithin(ss, k + 1);
      }
    }
    hide LowTotal;
  }

  /** Each window ends with the first sample that makes it long enough, and the one in progress is not. */
  lemma {:induction false} EndsFirst(ss: seq<Sample>, k: nat, m: nat)
    requires k <= |Ends(ss)| && From(ss, k) <= m <= |ss|
    ensures k < |Ends(ss)| ==> From(ss, k) < Ends(ss)[k] && (m < Ends(ss)[k] <==> Total(ss, From(ss, k), m) < IDLEACTIVE_SAMPLE_RATE)
    ensures k == |Ends(ss)| ==> Total(ss, From(ss, k), m) < IDLEACTIVE_SAMPLE_RATE
  {
    if |ss| > 0 {
      var before, x := ss[..|ss| - 1], ss[|ss| - 1];
      assert before + [x] == ss;
      EndsPush(before, x, k);
      assert Total(ss, m, m) == 0;
      hide Ends, Total, From;
      if k <= |Ends(before)| {
        EndsFirst(before, k, if m <= |before| then m else |before|);
        TotalFrame(before, x, From(ss, k), if m <= |before| then m else |before|);
      }
    }
  }

  ghost predicate Covers(w: Window, ss: seq<Sample>, from: nat, to: nat, before: int) {
    && from < to <= |ss|
    && w.elapsed == Total(ss, from, to) >= IDLEACTIVE_SAMPLE_RATE > Total(ss, from, to - 1)
    && w.lowIdleFreq == LowTotal(ss, from, to, before) as real
  }

  lemma WindowCovers(ws: seq<Window>, r: PrimaryCtr, ss: seq<Sample>, lowTic: int, k: nat)
    requires WindowsOk(ws, r, ss, lowTic) && k < |ws|
    ensures Covers(ws[k], ss, From(ss, k), Ends(ss)[k], TargetBefore(ws[..k], r, lowTic))
  {
    assert WindowOk(ws, r, ss, lowTic, k);
    hide TargetBefore, TargetOf, Ends, LowTotal;
    EndsFirst(ss, k, From(ss, k));
    EndsFirst(ss, k, Ends(ss)[k]);
    EndsFirst(ss, k, Ends(ss)[k] - 1);
  }

  /**
   What every window of every Primary consists of: the samples up to the first
   with which it lasts a second, and of that the time after samples without an
   idle core, or all of it if the target before the last move was one core.
   */
  lemma WindowsAreSamples(es: seq<Event>, lowTic: int, i: nat, k: nat)
    requires i < |Run(es, lowTic).ctrs| && k < |Run(es, lowTic).infos[i].windows|
    ensures |Registrations(es)| == |Run(es, lowTic).ctrs|
    ensures var ws, r, ss := Run(es, lowTic).infos[i].windows, Registrations(es)[i], Samples(es, lowTic, i);
            |ws| == |Ends(ss)| && Covers(ws[k], ss, From(ss, k), Ends(ss)[k], TargetBefore(ws[..k], r, lowTic))
  {
    RecordsFollowSamples(es, lowTic, i);
    hide Run, Registrations, Samples, Covers, Ends;
    WindowCovers(Run(es, lowTic).infos[i].windows, Registrations(es)[i], Samples(es, lowTic, i), lowTic, k);
  }

  lemma {:induction false} TargetInRange(ws: seq<Window>, r: PrimaryCtr, lowTic: int)
    requires lowTic <= r.targetIdleCores <= r.staticTargetIdleCores
    ensures lowTic <= TargetOf(ws, r, lowTic) <= r.staticTargetIdleCores
  {
    if |ws| > 0 {
      TargetInRange(ws[..|ws| - 1], r, lowTic);
    }
  }

  /**
   What a window does to the target. With the 0.85-weighted sum of the windows over
   the length of this one above the threshold, it rises by one, up to the static
   target. Otherwise it falls by one, down to LOW_TIC, if ten windows have been
   waited out since it last fell, or none and the rate is not within the error band;
   else the window is waited out.
   */
  ghost predicate Moves(ws: seq<Window>, r: PrimaryCtr, lowTic: int, k: nat) {
    && k < |ws| && ws[k].elapsed > 0
    && var rate := GeometricSum(ws[..k + 1], 0) / ws[k].elapsed as real;
       var threshold, n := r.lowIdleFreqThreshold, Waited(ws[..k], r.lowIdleFreqThreshold);
       var before := if k == 0 then r.targetIdleCores else ws[k - 1].target;
       var now := Waited(ws[..k + 1], threshold);
       if rate > threshold then ws[k].target == Min(before + 1, r.staticTargetIdleCores) && now == n
       else if n == 10 || (n == 0 && rate <= 0.66 * threshold) then ws[k].target == Max(before - 1, lowTic) && now == 0
       else ws[k].target == before && now == n + 1
  }

  /** The rule with the rate written as a quotient. */
  lemma RuleByRate(ws: seq<Window>, r: PrimaryCtr, lowTic: int)
    requires |ws| > 0 && ws[|ws| - 1].elapsed > 0
    ensures var before, rate := ws[..|ws| - 1], GeometricSum(ws, 0) / ws[|ws| - 1].elapsed as real;
            var t, n := TargetOf(before, r, lowTic), Waited(before, r.lowIdleFreqThreshold);
            var t', n' := TargetOf(ws, r, lowTic), Waited(ws, r.lowIdleFreqThreshold);
            if rate > r.lowIdleFreqThreshold then t' == Min(t + 1, r.staticTargetIdleCores) && n' == n
            else if n == 10 || (n == 0 && rate <= 0.66 * r.lowIdleFreqThreshold) then t' == Max(t - 1, lowTic) && n' == 0
            else t' == t && n' == n + 1
  {
    RateAbove(GeometricSum(ws, 0), ws[|ws| - 1].elapsed as real, r.lowIdleFreqThreshold);
    RateAbove(GeometricSum(ws, 0), ws[|ws| - 1].elapsed as real, 0.66 * r.lowIdleFreqThreshold);
    hide GeometricSum;
  }

  lemma MovesByNumbers(ws: seq<Window>, r: PrimaryCtr, ss: seq<Sample>, lowTic: int, k: nat)
    requires WindowsOk(ws, r, ss, lowTic) && k < |ws|
    ensures Moves(ws, r, lowTic, k)
  {
    WindowCovers(ws, r, ss, lowTic, k);
    assert WindowOk(ws, r, ss, lowTic, k);
    assert k > 0 ==> WindowOk(ws, r, ss, lowTic, k - 1);
    hide GeometricSum, Waited, WindowsOk, Ends, Total, LowTotal, TargetBefore;
    var v := ws[..k + 1];
    assert v[..|v| - 1] == ws[..k] && v[|v| - 1] == ws[k];
    assert TargetOf(ws[..k], r, lowTic) == if k == 0 then r.targetIdleCores else ws[k - 1].target;
    hide TargetOf;
    RuleByRate(v, r, lowTic);
  }

  lemma LastTarget(ws: seq<Window>, r: PrimaryCtr, ss: seq<Sample>, lowTic: int)
    requires WindowsOk(ws, r, ss, lowTic) && |ws| > 0
    ensures ws[|ws| - 1].target == TargetOf(ws, r, lowTic)
  {
    assert WindowOk(ws, r, ss, lowTic, |ws| - 1) && ws[..|ws|] == ws;
  }

  lemma NearBefore(ws: seq<Window>, r: PrimaryCtr, ss: seq<Sample>, lowTic: int, k: nat)
    requires WindowsOk(ws, r, ss, lowTic) && k < |ws|
    ensures lowTic <= r.targetIdleCores <= r.staticTargetIdleCores ==>
            -1 <= ws[k].target - (if k == 0 then r.targetIdleCores else ws[k - 1].target) <= 1
  {
    MovesByNumbers(ws, r, ss, lowTic, k);
    assert k > 0 ==> WindowOk(ws, r, ss, lowTic, k - 1);
    hide WindowsOk, Waited, GeometricSum, Ends, Total, LowTotal, TargetBefore;
    if lowTic <= r.targetIdleCores <= r.staticTargetIdleCores {
      TargetInRange(ws[..k], r, lowTic);
    }
  }

  /**
   Every window of every run moves the target so, by one core at most; and the
   target in force is the one that the last window led to, with the maximum that
   goes with it, everything else of the registration being as it was.
   */
  lemma TargetMoves(es: seq<Event>, lowTic: int, i: nat, k: nat)
    requires i < |Run(es, lowTic).ctrs| && k < |Run(es, lowTic).infos[i].windows|
    ensures |Registrations(es)| == |Run(es, lowTic).ctrs|
    ensures var s, r := Run(es, lowTic), Registrations(es)[i];
            var ws := s.infos[i].windows;
            var before, last := if k == 0 then r.targetIdleCores else ws[k - 1].target, ws[|ws| - 1].target;
            && Moves(ws, r, lowTic, k)
            && (lowTic <= r.targetIdleCores <= r.staticTargetIdleCores ==> -1 <= ws[k].target - before <= 1)
            && s.ctrs[i] == r.(targetIdleCores := last, maxSecondaryCores := r.totalEligibleCores - last)
  {
    RecordsFollowSamples(es, lowTic, i);
    var ws, r, ss := Run(es, lowTic).infos[i].windows, Registrations(es)[i], Samples(es, lowTic, i);
    hide Run, Registrations, Samples, Ends, Total, LowTotal, Moves, InfoTracks, GeometricSum, Waited;
    MovesByNumbers(ws, r, ss, lowTic, k);
    LastTarget(ws, r, ss, lowTic);
    NearBefore(ws, r, ss, lowTic, k);
  }

  /** The windows that did not exceed the threshold, and those of them that let the target fall with ten waited out. */
  function Calm(ws: seq<Window>, threshold: real): nat {
    if |ws| == 0 then 0 else Calm(ws[..|ws| - 1], threshold) + if Exceeds(ws, threshold) then 0 else 1
  }

  function LateFalls(ws: seq<Window>, threshold: real): nat {
    if |ws| == 0 then 0
    else LateFalls(ws[..|ws| - 1], threshold) + if Falls(ws, threshold) && Waited(ws[..|ws| - 1], threshold) == 10 then 1 else 0
  }

  lemma {:induction false} LateFallsWait(ws: seq<Window>, threshold: real)
    ensures 11 * LateFalls(ws, threshold) + Waited(ws, threshold) <= Calm(ws, threshold) + 10
  {
    if |ws| > 0 {
      LateFallsWait(ws[..|ws| - 1], threshold);
    }
  }

  /** Over any run, the target falls out of the error band at most once in eleven windows that do not exceed the threshold. */
  lemma HysteresisBound(es: seq<Event>, lowTic: int, i: nat)
    requires i < |Run(es, lowTic).ctrs|
    ensures |Registrations(es)| == |Run(es, lowTic).ctrs|
    ensures var s, threshold := Run(es, lowTic), Registrations(es)[i].lowIdleFreqThreshold;
            && s.ctrs[i].lowIdleFreqThreshold == threshold
            && 11 * LateFalls(s.infos[i].windows, threshold) + Min(s.infos[i].surplusEvts, 10) <= Calm(s.infos[i].windows, threshold) + 10
  {
    RecordsFollowSamples(es, lowTic, i);
    LateFallsWait(Run(es, lowTic).infos[i].windows, Registrations(es)[i].lowIdleFreqThreshold);
  }
}
