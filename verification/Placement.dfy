/**
 The two-phase task placement of the Monitor (`twopa`, Monitor/monitor.c) on
 values: what a visit to one task does, in each phase, and what a whole run
 leaves behind. What the kernel shows of a task when it is looked up is an
 input, so tasks may block, migrate and die at any point.
 */
module Placement {
  import opened Sets
  import opened Requests
  import opened Publication

  /** A task as phase 1 finds it. */
  datatype Sighting = Gone | Asleep | RunningOn(cpu: int)

  /** Phase 1 left a task where it was, or gave it the CPU in slot `at`, the cursor having been at `cursor`. */
  datatype Placement = Stay(pid: int, cpu: int) | Move(pid: int, from: int, cursor: nat, at: nat, to: int)

  /** The block as `twopa` reads it; the words behind the affinity list are readable too. */
  datatype Block = Block(needs: int, words: seq<int>, num: nat, dedicated: seq<int>)
  {
    predicate Valid() { num <= SLOTS && num + 2 * MAX_PIDS < |words| }

    function Live(): seq<int>
      requires Valid()
    { words[..num] }

    function Union(): set<int>
      requires Valid()
    { Elems(dedicated) + Elems(Live()) }
  }

  /** The locals of `twopa`, the affinity of every task, and what phase 1 has done. */
  datatype Walk = Walk(marked: set<int>, placements: nat, cursor: nat, stopped: bool,
                       affinity: map<int, set<int>>, log: seq<Placement>)

  /** `set_cpus_allowed_ptr`: refused for an empty mask. */
  function Allow(affinity: map<int, set<int>>, pid: int, mask: set<int>): map<int, set<int>> {
    if mask == {} || pid !in affinity then affinity else affinity[pid := mask]
  }

  // Phase 1

  /** The cursor after stepping over the CPU that a task is on... */
  function Stepped(b: Block, cursor: nat, cpu: int): nat
    requires cursor < |b.words|
  {
    if b.words[cursor] == cpu then cursor + 1 else cursor
  }

  /** ... and after wrapping around. */
  function Target(b: Block, cursor: nat, cpu: int): nat
    requires cursor < |b.words|
  {
    var c := Stepped(b, cursor, cpu);
    if c == b.num then 0 else c
  }

  function Visited(b: Block, w: Walk, pid: int, seen: Sighting): Walk
    requires w.cursor + 1 < |b.words|
  {
    if w.stopped || !seen.RunningOn? then w
    else if seen.cpu !in w.marked then
      w.(marked := w.marked + {seen.cpu}, placements := w.placements + 1, log := w.log + [Stay(pid, seen.cpu)])
    else
      var c := Target(b, w.cursor, seen.cpu);
      var to := b.words[c];
      var stop := w.placements + 1 == b.num;
      Walk(w.marked + {to}, w.placements + 1, if stop then c else c + 1, stop, Allow(w.affinity, pid, {to}),
           w.log + [Move(pid, seen.cpu, w.cursor, c, to)])
  }

  /** Phase 1 over the first n pids of a container. */
  function Walked(b: Block, w: Walk, pids: seq<int>, seen: seq<Sighting>, n: nat): (r: Walk)
    requires b.Valid() && n <= |pids| && n <= |seen| && n <= MAX_PIDS && w.cursor <= b.num
    ensures r.cursor <= b.num + 2 * n
  {
    if n == 0 then w else Visited(b, Walked(b, w, pids, seen, n - 1), pids[n - 1], seen[n - 1])
  }

  // Phase 2

  function Spread(affinity: map<int, set<int>>, mask: set<int>, pids: seq<int>, alive: seq<bool>, n: nat): map<int, set<int>>
    requires n <= |pids| && n <= |alive|
  {
    if n == 0 then affinity
    else
      var before := Spread(affinity, mask, pids, alive, n - 1);
      if alive[n - 1] then Allow(before, pids[n - 1], mask) else before
  }

  // Whole runs

  /** A container's pid cache, and what its tasks look like in each phase. */
  datatype Container = Container(pids: seq<int>, seen: seq<Sighting>, alive: seq<bool>)
  {
    predicate Valid() { |pids| == |seen| == |alive| && |pids| <= MAX_PIDS }
  }

  /** Phase 1, if it was a request to grow, then phase 2; the cursor is left behind the live list. */
  function Served(b: Block, w: Walk, c: Container): Walk
    requires b.Valid() && c.Valid() && w.cursor <= b.num
  {
    var n := |c.pids|;
    var placed := if b.needs == GROW then Walked(b, w.(stopped := false), c.pids, c.seen, n) else w;
    placed.(affinity := Spread(placed.affinity, b.Union(), c.pids, c.alive, n), cursor := b.num)
  }

  function Begun(affinity: map<int, set<int>>): Walk {
    Walk({}, 0, 0, false, affinity, [])
  }

  function TwoPhase(b: Block, affinity: map<int, set<int>>, cs: seq<Container>): (w: Walk)
    requires b.Valid() && forall c | c in cs :: c.Valid()
    ensures w.cursor <= b.num
  {
    if |cs| == 0 then Begun(affinity) else Served(b, TwoPhase(b, affinity, cs[..|cs| - 1]), cs[|cs| - 1])
  }

  // Phase 1: who stays and who moves

  function Mark(p: Placement): int {
    match p
    case Stay(_, cpu) => cpu
    case Move(_, _, _, _, to) => to
  }

  function Marks(log: seq<Placement>): set<int> {
    set p | p in log :: Mark(p)
  }

  /** A task stays when its CPU has no task yet and moves when it has one. */
  ghost predicate Justified(log: seq<Placement>) {
    forall j :: 0 <= j < |log| ==>
      match log[j]
      case Stay(_, cpu) => cpu !in Marks(log[..j])
      case Move(_, from, _, _, _) => from in Marks(log[..j])
  }

  ghost predicate Accounted(w: Walk) {
    w.marked == Marks(w.log) && w.placements == |w.log| && Justified(w.log)
  }

  lemma MarksPush(log: seq<Placement>, p: Placement)
    ensures Marks(log + [p]) == Marks(log) + {Mark(p)}
  {
    forall q | q in log + [p] ensures q in log || q == p {}
    forall q | q in log || q == p ensures q in log + [p] {}
  }

  lemma JustifiedPush(log: seq<Placement>, p: Placement)
    requires Justified(log)
    requires if p.Stay? then p.cpu !in Marks(log) else p.from in Marks(log)
    ensures Justified(log + [p])
  {
    forall j | 0 <= j < |log + [p]| ensures (log + [p])[..j] == if j < |log| then log[..j] else log {}
  }

  lemma VisitAccounted(b: Block, w: Walk, pid: int, seen: Sighting)
    requires w.cursor + 1 < |b.words| && Accounted(w)
    ensures Accounted(Visited(b, w, pid, seen))
  {
    var v := Visited(b, w, pid, seen);
    if v != w {
      var p := v.log[|w.log|];
      MarksPush(w.log, p);
      hide Marks, Justified, Target, Allow;
      JustifiedPush(w.log, p);
    }
  }

  lemma {:induction false} WalkAccounted(b: Block, w: Walk, pids: seq<int>, seen: seq<Sighting>, n: nat)
    requires b.Valid() && n <= |pids| && n <= |seen| && n <= MAX_PIDS && w.cursor <= b.num && Accounted(w)
    ensures Accounted(Walked(b, w, pids, seen, n))
  {
    hide Accounted;
    if n > 0 {
      WalkAccounted(b, w, pids, seen, n - 1);
      VisitAccounted(b, Walked(b, w, pids, seen, n - 1), pids[n - 1], seen[n - 1]);
    }
  }

  lemma {:induction false} RunAccounted(b: Block, affinity: map<int, set<int>>, cs: seq<Container>)
    requires b.Valid() && forall c | c in cs :: c.Valid()
    ensures Accounted(TwoPhase(b, affinity, cs))
  {
    if |cs| > 0 {
      var w, c := TwoPhase(b, affinity, cs[..|cs| - 1]), cs[|cs| - 1];
      RunAccounted(b, affinity, cs[..|cs| - 1]);
      assert c in cs;
      if b.needs == GROW {
        WalkAccounted(b, w.(stopped := false), c.pids, c.seen, |c.pids|);
      }
    }
  }

  /**
   Over all containers of a run, at most one runnable task is left in place per
   CPU, and a task is moved only off a CPU that an earlier placement gave a task.
   */
  lemma OneTaskInPlacePerCpu(b: Block, affinity: map<int, set<int>>, cs: seq<Container>, i: nat, j: nat)
    requires b.Valid() && forall c | c in cs :: c.Valid()
    requires i <= j < |TwoPhase(b, affinity, cs).log|
    ensures var log := TwoPhase(b, affinity, cs).log;
            && (i < j && log[i].Stay? && log[j].Stay? ==> log[i].cpu != log[j].cpu)
            && (log[j].Move? ==> exists k :: 0 <= k < j && Mark(log[k]) == log[j].from)
  {
    RunAccounted(b, affinity, cs);
    var log := TwoPhase(b, affinity, cs).log;
    if i < j && log[i].Stay? && log[j].Stay? {
      assert log[i] == log[..j][i] && log[i] in log[..j];
      assert Mark(log[i]) in Marks(log[..j]);
    }
    if log[j].Move? {
      var p :| p in log[..j] && Mark(p) == log[j].from;
      var k :| 0 <= k < j && log[..j][k] == p;
      assert Mark(log[k]) == log[j].from;
    }
  }

  // Phase 1: whether and when

  /** How many of the first n tasks are seen running. */
  function Running(seen: seq<Sighting>, n: nat): nat
    requires n <= |seen|
  {
    if n == 0 then 0 else Running(seen, n - 1) + if seen[n - 1].RunningOn? then 1 else 0
  }

  /**
   Phase 1 places every task that it sees running until it stops, and it stops
   exactly with the placement that makes as many as there are listed cores, if
   that one is a move in this container.
   */
  lemma {:induction false} StopsExactly(b: Block, w: Walk, pids: seq<int>, seen: seq<Sighting>, n: nat)
    requires b.Valid() && n <= |pids| && n <= |seen| && n <= MAX_PIDS && w.cursor <= b.num
    requires !w.stopped && w.placements == |w.log|
    ensures var v := Walked(b, w, pids, seen, n);
            && v.placements == |v.log| >= |w.log| && v.log[..|w.log|] == w.log
            && (v.stopped <==> |w.log| < b.num <= |v.log| && v.log[b.num - 1].Move?)
            && |v.log| <= |w.log| + Running(seen, n)
            && (if v.stopped then |v.log| == b.num else |v.log| == |w.log| + Running(seen, n))
  {
    if n > 0 {
      StopsExactly(b, w, pids, seen, n - 1);
    }
  }

  lemma {:induction false} RunningSome(seen: seq<Sighting>, n: nat)
    requires n <= |seen|
    ensures Running(seen, n) > 0 <==> exists k :: 0 <= k < n && seen[k].RunningOn?
  {
    if n > 0 {
      RunningSome(seen, n - 1);
    }
  }

  /** A task that phase 1 can see running. */
  ghost predicate SeesRunning(c: Container) {
    exists k :: 0 <= k < |c.seen| && c.seen[k].RunningOn?
  }

  /** Single placements are made if and only if the request is one to grow, action 1, and some task is seen running. */
  lemma {:induction false} PlacesExactly(b: Block, affinity: map<int, set<int>>, cs: seq<Container>)
    requires b.Valid() && forall c | c in cs :: c.Valid()
    ensures TwoPhase(b, affinity, cs).log != [] <==> b.needs == 1 && exists i :: 0 <= i < |cs| && SeesRunning(cs[i])
  {
    if |cs| > 0 {
      var n := |cs| - 1;
      var w, c := TwoPhase(b, affinity, cs[..n]), cs[n];
      PlacesExactly(b, affinity, cs[..n]);
      assert c in cs;
      if b.needs == GROW {
        RunAccounted(b, affinity, cs[..n]);
        StopsExactly(b, w.(stopped := false), c.pids, c.seen, |c.pids|);
        RunningSome(c.seen, |c.pids|);
        var v := Walked(b, w.(stopped := false), c.pids, c.seen, |c.pids|);
        assert TwoPhase(b, affinity, cs).log == v.log;
        assert v.log != [] <==> w.log != [] || SeesRunning(c);
        hide SeesRunning, Running, Walked, TwoPhase;
        if i :| 0 <= i < |cs| && SeesRunning(cs[i]) {
          assert i < n ==> cs[..n][i] == cs[i];
        }
        if i :| 0 <= i < n && SeesRunning(cs[..n][i]) {
          assert cs[i] == cs[..n][i];
        }
      }
    }
  }

  // Phase 1: where to

  /**
   With the cursor not past the end, the CPU chosen is outside the live list
   exactly when the cursor stood at the end and the stale word there is the
   task's own CPU: the cursor is compared with the end only after it was moved on.
   */
  lemma TargetLiveExactly(b: Block, cursor: nat, cpu: int)
    requires b.Valid() && b.num > 0 && cursor <= b.num
    ensures Target(b, cursor, cpu) < b.num <==> !(cursor == b.num && b.words[cursor] == cpu)
  {}

  /** The case split, for any cursor, in which a task is sent to the CPU it is on. */
  predicate SendsHome(b: Block, cursor: nat, cpu: int)
    requires cursor + 1 < |b.words|
  {
    if cursor < b.num then b.num == 1 && b.words[0] == cpu
    else if b.words[cursor] == cpu then b.words[cursor + 1] == cpu
    else cursor == b.num && b.words[0] == cpu
  }

  lemma TargetOwnCpuExactly(b: Block, cursor: nat, cpu: int)
    requires b.Valid() && NoDup(b.Live()) && cursor + 1 < |b.words|
    ensures b.words[Target(b, cursor, cpu)] == cpu <==> SendsHome(b, cursor, cpu)
  {
    assert forall k :: 0 <= k < b.num ==> b.Live()[k] == b.words[k];
  }

  /** Every move was made as the rule for the target says. */
  ghost predicate ByRule(b: Block, log: seq<Placement>) {
    forall p | p in log && p.Move? ::
      p.cursor + 1 < |b.words| && p.at == Target(b, p.cursor, p.from) && p.at < |b.words| && p.to == b.words[p.at]
  }

  lemma VisitByRule(b: Block, w: Walk, pid: int, seen: Sighting)
    requires w.cursor + 1 < |b.words| && ByRule(b, w.log)
    ensures ByRule(b, Visited(b, w, pid, seen).log)
  {
    var v := Visited(b, w, pid, seen);
    forall p | p in v.log && p.Move?
      ensures p.cursor + 1 < |b.words| && p.at == Target(b, p.cursor, p.from) && p.at < |b.words| && p.to == b.words[p.at]
    {
      assert p in w.log || p == v.log[|w.log|];
    }
  }

  lemma {:induction false} WalkByRule(b: Block, w: Walk, pids: seq<int>, seen: seq<Sighting>, n: nat)
    requires b.Valid() && n <= |pids| && n <= |seen| && n <= MAX_PIDS && w.cursor <= b.num && ByRule(b, w.log)
    ensures ByRule(b, Walked(b, w, pids, seen, n).log)
  {
    hide ByRule;
    if n > 0 {
      WalkByRule(b, w, pids, seen, n - 1);
      VisitByRule(b, Walked(b, w, pids, seen, n - 1), pids[n - 1], seen[n - 1]);
    }
  }

  lemma {:induction false} RunByRule(b: Block, affinity: map<int, set<int>>, cs: seq<Container>)
    requires b.Valid() && forall c | c in cs :: c.Valid()
    ensures ByRule(b, TwoPhase(b, affinity, cs).log)
  {
    if |cs| > 0 {
      var w, c := TwoPhase(b, affinity, cs[..|cs| - 1]), cs[|cs| - 1];
      RunByRule(b, affinity, cs[..|cs| - 1]);
      assert c in cs;
      if b.needs == GROW {
        WalkByRule(b, w.(stopped := false), c.pids, c.seen, |c.pids|);
      }
    }
  }

  /** Over a whole run, which moves send a task to the CPU it is on. */
  lemma SendsHomeExactly(b: Block, affinity: map<int, set<int>>, cs: seq<Container>, i: nat)
    requires b.Valid() && NoDup(b.Live()) && forall c | c in cs :: c.Valid()
    requires i < |TwoPhase(b, affinity, cs).log| && TwoPhase(b, affinity, cs).log[i].Move?
    ensures var p := TwoPhase(b, affinity, cs).log[i];
            p.cursor + 1 < |b.words| && (p.to == p.from <==> SendsHome(b, p.cursor, p.from))
  {
    RunByRule(b, affinity, cs);
    var p := TwoPhase(b, affinity, cs).log[i];
    assert p in TwoPhase(b, affinity, cs).log;
    TargetOwnCpuExactly(b, p.cursor, p.from);
  }

  /** From the second container on the first slot is taken without a look at where the task is. */
  lemma SecondContainerSendsHome(b: Block, affinity: map<int, set<int>>)
    requires b.Valid() && b.needs == GROW && b.num == 2 && b.words[..3] == [5, 6, 7]
    ensures var cs := [Container([1], [RunningOn(5)], [true]), Container([2], [RunningOn(5)], [true])];
            TwoPhase(b, affinity, cs).log == [Stay(1, 5), Move(2, 5, 2, 0, 5)]
  {
    assert forall k :: 0 <= k < 3 ==> b.words[k] == b.words[..3][k];
    TwoSingles(b, affinity, 5);
  }

  /**
   From the second container on the cursor starts at the end, so this happens:
   a task on the CPU that the stale word names is sent to a later stale word.
   */
  lemma SecondContainerLeavesTheList(b: Block, affinity: map<int, set<int>>)
    requires b.Valid() && b.needs == GROW && b.num == 1 && b.words[..3] == [5, 7, 9]
    ensures var cs := [Container([1], [RunningOn(7)], [true]), Container([2], [RunningOn(7)], [true])];
            TwoPhase(b, affinity, cs).log == [Stay(1, 7), Move(2, 7, 1, 2, 9)] && 9 !in b.Live()
  {
    assert forall k :: 0 <= k < 3 ==> b.words[k] == b.words[..3][k];
    TwoSingles(b, affinity, 7);
    assert b.Live() == [b.words[0]];
  }

  /** Two containers with one task each, on one CPU: the first stays, the second goes where the rule says. */
  lemma TwoSingles(b: Block, affinity: map<int, set<int>>, cpu: int)
    requires b.Valid() && b.needs == GROW && b.num > 0
    ensures var cs := [Container([1], [RunningOn(cpu)], [true]), Container([2], [RunningOn(cpu)], [true])];
            var at := Target(b, b.num, cpu);
            TwoPhase(b, affinity, cs).log == [Stay(1, cpu), Move(2, cpu, b.num, at, b.words[at])]
  {
    var c, d := Container([1], [RunningOn(cpu)], [true]), Container([2], [RunningOn(cpu)], [true]);
    var w0, w1 := Begun(affinity), Served(b, Begun(affinity), c);
    assert Walked(b, w0, c.pids, c.seen, 0) == w0;
    assert Walked(b, w0, c.pids, c.seen, 1).log == [Stay(1, cpu)];
    assert w1.marked == {cpu} && !w1.stopped && w1.cursor == b.num && w1.log == [Stay(1, cpu)];
    var at := Target(b, b.num, cpu);
    assert Walked(b, w1, d.pids, d.seen, 0) == w1;
    assert Walked(b, w1, d.pids, d.seen, 1).log == [Stay(1, cpu), Move(2, cpu, b.num, at, b.words[at])];
    assert w1.(stopped := false) == w1;
    assert Served(b, w1, d).log == [Stay(1, cpu), Move(2, cpu, b.num, at, b.words[at])];
    assert [c, d][..1] == [c] && [c][..0] == [];
    assert TwoPhase(b, affinity, []) == w0 && TwoPhase(b, affinity, [c]) == w1;
  }

  /**
   Phase 1 is meant to stop when every listed core has a task. It stops when as
   many placements were made, a task left in place on another CPU included.
   */
  lemma StopsBeforeEveryListedCoreHasATask(b: Block, affinity: map<int, set<int>>)
    requires b.Valid() && b.num == 2 && b.words[..2] == [5, 6]
    ensures var w := Walked(b, Begun(affinity), [1, 2], [RunningOn(9), RunningOn(9)], 2);
            w.stopped && w.marked == {9, 5} && 6 in b.Live()
  {
    var w0, pids, seen := Begun(affinity), [1, 2], [RunningOn(9), RunningOn(9)];
    assert b.words[0] == b.words[..2][0] && b.words[1] == b.words[..2][1];
    assert Walked(b, w0, pids, seen, 0) == w0;
    assert Walked(b, w0, pids, seen, 1) == w0.(marked := {9}, placements := 1, log := [Stay(1, 9)]);
  }

  /** Every placement so far has put a task on a listed core that had none. */
  ghost predicate Unwasted(b: Block, log: seq<Placement>)
    requires b.Valid()
  {
    && (forall i :: 0 <= i < |log| ==> Mark(log[i]) in b.Live())
    && (forall i, j :: 0 <= i < j < |log| ==> Mark(log[i]) != Mark(log[j]))
  }

  /** With as many placements as listed cores, all of these have a task exactly when no placement was wasted. */
  lemma EveryCoreMarkedExactly(b: Block, w: Walk)
    requires b.Valid() && NoDup(b.Live()) && Accounted(w) && w.placements == b.num
    ensures Elems(b.Live()) <= w.marked <==> Unwasted(b, w.log)
  {
    var live, marks := b.Live(), seq(|w.log|, i requires 0 <= i < |w.log| => Mark(w.log[i]));
    assert Elems(marks) == w.marked by {
      forall m | m in w.marked ensures m in marks {
        var p :| p in w.log && Mark(p) == m;
        var i :| 0 <= i < |w.log| && w.log[i] == p;
        assert marks[i] == m;
      }
      forall m | m in marks ensures m in w.marked {
        var i :| 0 <= i < |marks| && marks[i] == m;
        assert w.log[i] in w.log;
      }
    }
    NoDupSize(live);
    SizeNoDup(marks);
    if Elems(live) <= w.marked {
      SubsetSize(Elems(live), Elems(marks));
      SameSizeSubset(Elems(live), Elems(marks));
      forall i | 0 <= i < |w.log| ensures Mark(w.log[i]) in live {
        assert marks[i] in Elems(marks);
      }
      forall i, j | 0 <= i < j < |w.log| ensures Mark(w.log[i]) != Mark(w.log[j]) {
        assert marks[i] != marks[j];
      }
    }
    if Unwasted(b, w.log) {
      NoDupSize(marks);
      assert Elems(marks) <= Elems(live);
      SameSizeSubset(Elems(marks), Elems(live));
    }
  }

  lemma {:induction false} StopCounts(b: Block, w: Walk, pids: seq<int>, seen: seq<Sighting>, n: nat)
    requires b.Valid() && n <= |pids| && n <= |seen| && n <= MAX_PIDS && w.cursor <= b.num && !w.stopped
    ensures var v := Walked(b, w, pids, seen, n); v.stopped ==> v.placements == b.num
  {
    if n > 0 {
      StopCounts(b, w, pids, seen, n - 1);
    }
  }

  /**
   Whenever phase 1 has stopped early, in whichever container of a run, all
   listed cores have a task if and only if no placement of the run was wasted:
   each was on a listed core, and on one that no earlier placement was on.
   */
  lemma StopsRightlyExactly(b: Block, affinity: map<int, set<int>>, cs: seq<Container>)
    requires b.Valid() && b.needs == GROW && NoDup(b.Live()) && |cs| > 0 && forall c | c in cs :: c.Valid()
    requires TwoPhase(b, affinity, cs).stopped
    ensures var w := TwoPhase(b, affinity, cs);
            Elems(b.Live()) <= w.marked <==> Unwasted(b, w.log)
  {
    var w, c := TwoPhase(b, affinity, cs[..|cs| - 1]), cs[|cs| - 1];
    assert c in cs;
    StopCounts(b, w.(stopped := false), c.pids, c.seen, |c.pids|);
    RunAccounted(b, affinity, cs);
    EveryCoreMarkedExactly(b, TwoPhase(b, affinity, cs));
  }

  /** A move for which the cursor stood at the end of the list, with the task's CPU in the stale word there. */
  predicate Escapes(b: Block, p: Placement)
    requires b.Valid()
  {
    p.Move? && p.cursor == b.num && b.words[b.num] == p.from
  }

  predicate OffList(b: Block, p: Placement) { p.Move? && p.at >= b.num }

  ghost predicate OnListSoFar(b: Block, w: Walk)
    requires b.Valid()
  {
    && (forall p | p in w.log :: Escapes(b, p) ==> OffList(b, p))
    && ((forall p | p in w.log :: !Escapes(b, p)) ==> w.cursor <= b.num && forall p | p in w.log :: !OffList(b, p))
  }

  lemma VisitOnList(b: Block, w: Walk, pid: int, seen: Sighting)
    requires b.Valid() && b.num > 0 && w.cursor + 1 < |b.words| && OnListSoFar(b, w)
    ensures OnListSoFar(b, Visited(b, w, pid, seen))
  {
    var v := Visited(b, w, pid, seen);
    if v != w {
      var p := v.log[|w.log|];
      assert v.log == w.log + [p];
      assert forall q :: q in v.log <==> q in w.log || q == p;
      if w.cursor <= b.num && p.Move? {
        TargetLiveExactly(b, w.cursor, p.from);
      }
      if forall q | q in v.log :: !Escapes(b, q) {
        assert !Escapes(b, p) && w.cursor <= b.num;
      }
    }
  }

  lemma {:induction false} WalkOnList(b: Block, w: Walk, pids: seq<int>, seen: seq<Sighting>, n: nat)
    requires b.Valid() && b.num > 0 && n <= |pids| && n <= |seen| && n <= MAX_PIDS && w.cursor <= b.num
    requires OnListSoFar(b, w)
    ensures OnListSoFar(b, Walked(b, w, pids, seen, n))
  {
    hide OnListSoFar;
    if n > 0 {
      WalkOnList(b, w, pids, seen, n - 1);
      VisitOnList(b, Walked(b, w, pids, seen, n - 1), pids[n - 1], seen[n - 1]);
    }
  }

  lemma {:induction false} RunOnList(b: Block, affinity: map<int, set<int>>, cs: seq<Container>)
    requires b.Valid() && b.num > 0 && forall c | c in cs :: c.Valid()
    ensures OnListSoFar(b, TwoPhase(b, affinity, cs))
  {
    if |cs| > 0 {
      var w, c := TwoPhase(b, affinity, cs[..|cs| - 1]), cs[|cs| - 1];
      RunOnList(b, affinity, cs[..|cs| - 1]);
      assert c in cs;
      if b.needs == GROW {
        WalkOnList(b, w.(stopped := false), c.pids, c.seen, |c.pids|);
      }
    }
  }

  /** Over a whole run, some task is sent to a slot behind the live list if and only if some move escapes. */
  lemma LeavesTheListExactly(b: Block, affinity: map<int, set<int>>, cs: seq<Container>)
    requires b.Valid() && b.num > 0 && forall c | c in cs :: c.Valid()
    ensures var log := TwoPhase(b, affinity, cs).log;
            (exists p :: p in log && OffList(b, p)) <==> (exists p :: p in log && Escapes(b, p))
  {
    RunOnList(b, affinity, cs);
    hide TwoPhase, Escapes, OffList;
  }

  /** A move for which the cursor had reached the end of the list. */
  predicate Reached(b: Block, p: Placement)
    requires b.Valid()
  {
    p.Move? && (p.cursor >= b.num || Stepped(b, p.cursor, p.from) == b.num)
  }

  /** The moves made before the cursor first reached the end. */
  ghost predicate FirstLap(b: Block, log: seq<Placement>)
    requires b.Valid()
  {
    forall p | p in log :: !Reached(b, p)
  }

  /** One move of the first lap. */
  predicate Fit(b: Block, p: Placement) {
    p.Move? ==> p.at < b.num <= |b.words| && p.to == b.words[p.at] && p.from != p.to
  }

  /** The targets are taken from the live list in order, each from a later slot. */
  ghost predicate InOrder(b: Block, w: Walk) {
    && (forall i :: 0 <= i < |w.log| ==> Fit(b, w.log[i]))
    && (forall i, j :: 0 <= i < j < |w.log| && w.log[i].Move? && w.log[j].Move? ==> w.log[i].at < w.log[j].at)
    && (forall i :: 0 <= i < |w.log| && w.log[i].Move? ==> w.log[i].at < w.cursor || w.stopped)
  }

  lemma VisitInOrder(b: Block, w: Walk, pid: int, seen: Sighting)
    requires b.Valid() && NoDup(b.Live()) && w.cursor + 1 < |b.words|
    requires FirstLap(b, w.log) ==> InOrder(b, w)
    ensures FirstLap(b, Visited(b, w, pid, seen).log) ==> InOrder(b, Visited(b, w, pid, seen))
  {
    var v := Visited(b, w, pid, seen);
    if v != w && FirstLap(b, v.log) {
      assert FirstLap(b, w.log) by { assert forall p | p in w.log :: p in v.log; }
      var p := v.log[|w.log|];
      assert p in v.log;
      if p.Move? {
        assert w.cursor < b.num;
        assert b.Live()[w.cursor] == b.words[w.cursor] && b.Live()[p.at] == b.words[p.at];
      }
    }
  }

  lemma {:induction false} WalkInOrder(b: Block, w: Walk, pids: seq<int>, seen: seq<Sighting>, n: nat)
    requires b.Valid() && NoDup(b.Live()) && n <= |pids| && n <= |seen| && n <= MAX_PIDS
    requires w.cursor <= b.num && w.log == []
    ensures var v := Walked(b, w, pids, seen, n); FirstLap(b, v.log) ==> InOrder(b, v)
  {
    hide InOrder, FirstLap;
    if n > 0 {
      WalkInOrder(b, w, pids, seen, n - 1);
      VisitInOrder(b, Walked(b, w, pids, seen, n - 1), pids[n - 1], seen[n - 1]);
    } else {
      NothingInOrder(b, w);
    }
  }

  lemma NothingInOrder(b: Block, w: Walk)
    requires w.log == []
    ensures InOrder(b, w)
  {}

  /**
   In the first container, until the cursor first reaches the end of the list,
   tasks are sent to pairwise distinct CPUs of the live list, never to the CPU
   they are on.
   */
  lemma FirstLapSpreads(b: Block, affinity: map<int, set<int>>, c: Container, n: nat, i: nat, j: nat)
    requires b.Valid() && NoDup(b.Live()) && c.Valid() && n <= |c.pids|
    requires FirstLap(b, Walked(b, Begun(affinity), c.pids, c.seen, n).log)
    requires i <= j < |Walked(b, Begun(affinity), c.pids, c.seen, n).log|
    ensures var log := Walked(b, Begun(affinity), c.pids, c.seen, n).log;
            && (log[i].Move? ==> log[i].to in b.Live() && log[i].to != log[i].from)
            && (log[j].Move? ==> log[j].to in b.Live() && log[j].to != log[j].from)
            && (i < j && log[i].Move? && log[j].Move? ==> log[i].to != log[j].to)
  {
    WalkInOrder(b, Begun(affinity), c.pids, c.seen, n);
    var log := Walked(b, Begun(affinity), c.pids, c.seen, n).log;
    forall k | k == i || k == j ensures log[k].Move? ==> log[k].at < b.num && b.Live()[log[k].at] == log[k].to {
      assert Fit(b, log[k]);
    }
  }

  /** What a task may run on after these placements: the CPU of its last move, or what it had. */
  function Pinned(log: seq<Placement>, pid: int, before: set<int>): set<int> {
    if |log| == 0 then before
    else
      var p := log[|log| - 1];
      if p.Move? && p.pid == pid then {p.to} else Pinned(log[..|log| - 1], pid, before)
  }

  /** Phase 1 pins each task that it moves to the CPU that it moves it to, and touches no other affinity. */
  lemma {:induction false} MovedIsPinned(b: Block, w: Walk, pids: seq<int>, seen: seq<Sighting>, n: nat, pid: int)
    requires b.Valid() && n <= |pids| && n <= |seen| && n <= MAX_PIDS && w.cursor <= b.num && pid in w.affinity
    ensures var v := Walked(b, w, pids, seen, n);
            && |w.log| <= |v.log| && v.affinity.Keys == w.affinity.Keys
            && v.affinity[pid] == Pinned(v.log[|w.log|..], pid, w.affinity[pid])
  {
    if n > 0 {
      MovedIsPinned(b, w, pids, seen, n - 1, pid);
      var u, v := Walked(b, w, pids, seen, n - 1), Walked(b, w, pids, seen, n);
      if v.log != u.log {
        var more := v.log[|w.log|..];
        assert more[..|more| - 1] == u.log[|w.log|..] && more[|more| - 1] == v.log[|u.log|];
      }
    }
  }

  // Phase 2: where every task ends up

  /** The pid was alive when phase 2 of this container came to it. */
  ghost predicate ReachedAlive(c: Container, pid: int) {
    exists k :: 0 <= k < |c.pids| && k < |c.alive| && c.pids[k] == pid && c.alive[k]
  }

  lemma {:induction false} SpreadResult(affinity: map<int, set<int>>, mask: set<int>, pids: seq<int>, alive: seq<bool>, n: nat, pid: int)
    requires n <= |pids| && n <= |alive| && pid in affinity
    ensures var r := Spread(affinity, mask, pids, alive, n);
            && r.Keys == affinity.Keys
            && r[pid] == if mask != {} && exists k :: 0 <= k < n && pids[k] == pid && alive[k] then mask else affinity[pid]
  {
    if n > 0 {
      SpreadResult(affinity, mask, pids, alive, n - 1, pid);
    }
  }

  /** Phase 1 of this container leaves the pid alone: it is not there, or never seen running. */
  ghost predicate Quiet(b: Block, c: Container, pid: int) {
    b.needs == GROW ==> forall k :: 0 <= k < |c.pids| && k < |c.seen| && c.pids[k] == pid ==> !c.seen[k].RunningOn?
  }

  /** Phase 1 touches only tasks that it sees running in its own container. */
  lemma {:induction false} WalkTouches(b: Block, w: Walk, pids: seq<int>, seen: seq<Sighting>, n: nat, pid: int)
    requires b.Valid() && n <= |pids| && n <= |seen| && n <= MAX_PIDS && w.cursor <= b.num && pid in w.affinity
    ensures var r := Walked(b, w, pids, seen, n).affinity;
            && pid in r
            && ((forall k :: 0 <= k < n && pids[k] == pid ==> !seen[k].RunningOn?) ==> r[pid] == w.affinity[pid])
  {
    if n > 0 {
      WalkTouches(b, w, pids, seen, n - 1, pid);
    }
  }

  /** One container: its live tasks get the union; who is neither alive nor moved here keeps what it has. */
  lemma ServedResult(b: Block, w: Walk, c: Container, pid: int)
    requires b.Valid() && c.Valid() && w.cursor <= b.num && pid in w.affinity
    ensures var r := Served(b, w, c).affinity;
            && pid in r
            && (b.Union() != {} && ReachedAlive(c, pid) ==> r[pid] == b.Union())
            && (Quiet(b, c, pid) ==> r[pid] == w.affinity[pid] || (b.Union() != {} && r[pid] == b.Union()))
            && (pid !in c.pids || (b.needs != GROW && b.Union() == {}) ==> r[pid] == w.affinity[pid])
  {
    var n := |c.pids|;
    if b.needs == GROW {
      WalkTouches(b, w.(stopped := false), c.pids, c.seen, n, pid);
      SpreadResult(Walked(b, w.(stopped := false), c.pids, c.seen, n).affinity, b.Union(), c.pids, c.alive, n, pid);
    } else {
      SpreadResult(w.affinity, b.Union(), c.pids, c.alive, n, pid);
    }
  }

  /**
   What a run of `twopa` comes to, whatever phase 1 did and whatever state the
   tasks were in, also with a pid in several caches. A task that phase 2 of
   container j finds alive is allowed exactly the dedicated and the listed cores,
   if there are any, unless phase 1 of a later container sees it running again
   (and then that container's phase 2 settles it). A task in no cache keeps its
   affinity; with no core at all and no phase 1, every task does.
   */
  lemma {:induction false} TwoPhaseGivesTheUnion(b: Block, affinity: map<int, set<int>>, cs: seq<Container>, pid: int, j: nat)
    requires b.Valid() && pid in affinity
    requires forall c | c in cs :: c.Valid()
    ensures pid in TwoPhase(b, affinity, cs).affinity
    ensures var final := TwoPhase(b, affinity, cs).affinity[pid];
            && (b.Union() != {} && j < |cs| && ReachedAlive(cs[j], pid) && (forall k :: j < k < |cs| ==> Quiet(b, cs[k], pid))
                ==> final == b.Union())
            && ((forall c :: c in cs ==> pid !in c.pids) ==> final == affinity[pid])
            && (b.needs != GROW && b.Union() == {} ==> final == affinity[pid])
  {
    if |cs| > 0 {
      var before, c := cs[..|cs| - 1], cs[|cs| - 1];
      TwoPhaseGivesTheUnion(b, affinity, before, pid, j);
      assert c in cs;
      ServedResult(b, TwoPhase(b, affinity, before), c, pid);
    }
  }
}
