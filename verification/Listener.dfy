/**
 The Listener (Listener/listener.cpp, Listener/getpids.c): how a registration
 request fills the shared slots, and when a Secondary pod starts the Balancer.
 The shared block is its own here; `Publication` has the interleavings.
 */
module Listener {
  import opened Requests
  import opened Publication

  const LAUNCHER := "harvest_launcher"

  /** What /proc shows of a task's command line. */
  datatype CommandLine = NoEntry | Empty | Name(text: string)

  datatype Task = Task(pid: int, cmdline: CommandLine)

  /** A container's task file. */
  datatype TaskFile = Unreadable | Readable(tasks: seq<Task>)

  /** What looking through a container comes to. */
  datatype Search = Fails | Finds(pid: int) | NoLauncher

  function SearchTasks(tasks: seq<Task>): Search {
    if |tasks| == 0 then NoLauncher
    else
      match tasks[0].cmdline
      case NoEntry => Fails
      case Empty => Fails
      case Name(text) => if text == LAUNCHER then Finds(tasks[0].pid) else SearchTasks(tasks[1..])
  }

  /** The task has another name than the launcher. */
  predicate Other(t: Task) { t.cmdline.Name? && t.cmdline.text != LAUNCHER }

  /** The first task that is not another program decides: the launcher is found, an unreadable one fails; with none, there is no launcher. */
  lemma {:induction false} SearchExactly(tasks: seq<Task>, k: nat)
    requires k <= |tasks| && (forall j :: 0 <= j < k ==> Other(tasks[j])) && (k < |tasks| ==> !Other(tasks[k]))
    ensures SearchTasks(tasks) == if k == |tasks| then NoLauncher
                                  else if tasks[k].cmdline == Name(LAUNCHER) then Finds(tasks[k].pid)
                                  else Fails
  {
    if k > 0 {
      assert forall j :: 0 <= j < k - 1 ==> tasks[1..][j] == tasks[j + 1];
      SearchExactly(tasks[1..], k - 1);
    }
  }

  function SearchFile(f: TaskFile): Search {
    if f.Unreadable? then Fails else SearchTasks(f.tasks)
  }

  /** The launchers of a pod, in the order of its containers. */
  function Launchers(pod: seq<TaskFile>): seq<int> {
    if |pod| == 0 then []
    else
      var r := SearchFile(pod[|pod| - 1]);
      Launchers(pod[..|pod| - 1]) + if r.Finds? then [r.pid] else []
  }

  /** The number of containers that could not be looked through. */
  function Failures(pod: seq<TaskFile>): nat {
    if |pod| == 0 then 0 else Failures(pod[..|pod| - 1]) + if SearchFile(pod[|pod| - 1]).Fails? then 1 else 0
  }

  lemma {:induction false} LaunchersFit(pod: seq<TaskFile>)
    ensures |Launchers(pod)| <= |pod|
  {
    if |pod| > 0 {
      LaunchersFit(pod[..|pod| - 1]);
    }
  }

  lemma {:induction false} NoFailures(pod: seq<TaskFile>)
    ensures Failures(pod) == 0 <==> forall k :: 0 <= k < |pod| ==> !SearchFile(pod[k]).Fails?
  {
    if |pod| > 0 {
      NoFailures(pod[..|pod| - 1]);
    }
  }

  function ParentPids(slots: seq<SecondarySlot>, n: nat): seq<int>
    requires n <= |slots|
  {
    seq(n, i requires 0 <= i < n => slots[i].parentPid)
  }

  class Process {
    var primaries: seq<PrimarySlot>
    var nrPrimaries: nat
    var secondaries: seq<SecondarySlot>
    var nrSecondaries: nat
    var updatingPids: bool
    var balancerControl: int

    /** The pids that have joined, from the published slots. */
    ghost function Joined(): seq<int>
      reads this
      requires nrSecondaries <= |secondaries|
    {
      ParentPids(secondaries, nrSecondaries)
    }

    ghost predicate Valid()
      reads this
    {
      && |primaries| == |secondaries| == SLOTS && nrPrimaries <= SLOTS && nrSecondaries <= SLOTS && !updatingPids
      && forall i :: 0 <= i < SLOTS ==> |primaries[i].cpus| == SLOTS
    }

    constructor ()
      ensures Valid() && nrPrimaries == nrSecondaries == 0 && balancerControl == 0
    {
      primaries := seq(SLOTS, _ => PrimarySlot(seq(SLOTS, _ => 0), 0, 0.0, 0, 0, 0, 0, 0, 0));
      secondaries := seq(SLOTS, _ => SecondarySlot(0, 0, seq(MAX_PIDS, _ => 0)));
      nrPrimaries, nrSecondaries, updatingPids, balancerControl := 0, 0, false, 0;
    }

    /** `parseCpuList` on the numbers in the list. */
    method ParseCpuList(cpus: seq<int>)
      requires Valid() && nrPrimaries < SLOTS && |cpus| <= SLOTS
      modifies `primaries
      ensures |primaries| == SLOTS
      ensures var slot := old(primaries[nrPrimaries]);
              primaries == old(primaries)[nrPrimaries := slot.(cpus := cpus + slot.cpus[|cpus|..], numCpus := |cpus|)]
    {
      var n := nrPrimaries;
      ghost var before, slot := primaries, primaries[n];
      assert [] + slot.cpus[0..] == slot.cpus && before[n := slot] == before;
      for k := 0 to |cpus|
        invariant |primaries| == SLOTS && primaries == before[n := slot.(cpus := cpus[..k] + slot.cpus[k..])]
      {
        assert (cpus[..k] + slot.cpus[k..])[k := cpus[k]] == cpus[..k + 1] + slot.cpus[k + 1..];
        primaries := primaries[n := primaries[n].(cpus := primaries[n].cpus[k := cpus[k]])];
      }
      assert cpus[..|cpus|] == cpus;
      primaries := primaries[n := primaries[n].(numCpus := |cpus|)];
    }

    /** A Primary's request: its slot is filled, with the surplus over its target as its maximum, then published. */
    method HandlePrimary(r: Registration)
      requires Valid() && nrPrimaries < SLOTS && |r.cpus| <= SLOTS
      modifies `primaries, `nrPrimaries
      ensures Valid() && nrPrimaries == old(nrPrimaries) + 1
      ensures Whole(primaries[nrPrimaries - 1], r) && primaries[nrPrimaries - 1].target == r.target
      ensures forall i :: 0 <= i < SLOTS && i != old(nrPrimaries) ==> primaries[i] == old(primaries[i])
    {
      var n := nrPrimaries;
      ParseCpuList(r.cpus);
      primaries := primaries[n := primaries[n].(threshold := r.threshold)];
      primaries := primaries[n := primaries[n].(lowTic := r.lowTic)];
      primaries := primaries[n := primaries[n].(target := r.target)];
      primaries := primaries[n := primaries[n].(staticTarget := r.staticTarget)];
      primaries := primaries[n := primaries[n].(minCores := r.minCores)];
      primaries := primaries[n := primaries[n].(total := primaries[n].numCpus)];
      primaries := primaries[n := primaries[n].(maxCores := primaries[n].total - primaries[n].target)];
      nrPrimaries := nrPrimaries + 1;
    }

    /** One container: its launcher, if those listed before it can all be read, takes the next slot. */
    method GetContainerTasks(f: TaskFile) returns (result: int)
      requires Valid() && nrSecondaries < SLOTS
      modifies `secondaries, `nrSecondaries, `updatingPids
      ensures Valid() && result == if SearchFile(f).Fails? then -1 else 0
      ensures match SearchFile(f)
              case Finds(pid) =>
                && nrSecondaries == old(nrSecondaries) + 1
                && secondaries == old(secondaries)[nrSecondaries - 1 := old(secondaries)[nrSecondaries - 1].(parentPid := pid, nrPids := 0)]
              case _ => secondaries == old(secondaries) && nrSecondaries == old(nrSecondaries)
    {
      if f.Unreadable? {
        return -1;
      }
      updatingPids := true;
      for k := 0 to |f.tasks|
        invariant SearchFile(f) == SearchTasks(f.tasks[k..])
        invariant secondaries == old(secondaries) && nrSecondaries == old(nrSecondaries)
      {
        assert f.tasks[k..][1..] == f.tasks[k + 1..];
        match f.tasks[k].cmdline {
          case NoEntry =>
            updatingPids := false;
            return -1;
          case Empty =>
            updatingPids := false;
            return -1;
          case Name(text) =>
            if text == LAUNCHER {
              var n := nrSecondaries;
              secondaries := secondaries[n := secondaries[n].(parentPid := f.tasks[k].pid)];
              secondaries := secondaries[n := secondaries[n].(nrPids := 0)];
              nrSecondaries := nrSecondaries + 1;
              updatingPids := false;
              return 0;
            }
        }
      }
      updatingPids := false;
      return 0;
    }

    /** All containers of a pod; every one that fails takes one from the result. */
    method GetContainers(pod: seq<TaskFile>) returns (total: int)
      requires Valid() && nrSecondaries + |pod| <= SLOTS
      modifies `secondaries, `nrSecondaries, `updatingPids
      ensures Valid() && total + Failures(pod) == 0 && Joined() == old(Joined()) + Launchers(pod)
    {
      total := 0;
      for k := 0 to |pod|
        invariant Valid() && total + Failures(pod[..k]) == 0 && nrSecondaries + |pod| - k <= SLOTS
        invariant Joined() == old(Joined()) + Launchers(pod[..k])
      {
        assert pod[..k + 1][..k] == pod[..k];
        ghost var before := Joined();
        var result := GetContainerTasks(pod[k]);
        total := total + result;
        assert SearchFile(pod[k]).Finds? ==> Joined() == before + [SearchFile(pod[k]).pid];
        assert !SearchFile(pod[k]).Finds? ==> Joined() == before;
      }
      assert pod[..|pod|] == pod;
    }

    /**
     A Secondary's request. Its launchers join in any case; a paused Balancer is
     started exactly when every container of the pod could be looked through.
     */
    method HandleSecondary(pod: seq<TaskFile>)
      requires Valid() && nrSecondaries + |pod| <= SLOTS
      modifies `secondaries, `nrSecondaries, `updatingPids, `balancerControl
      ensures Valid() && Joined() == old(Joined()) + Launchers(pod)
      ensures old(balancerControl) != 0 ==> balancerControl == old(balancerControl)
      ensures old(balancerControl) == 0 ==>
                (balancerControl == 1 <==> forall k :: 0 <= k < |pod| ==> !SearchFile(pod[k]).Fails?)
                && (balancerControl == 0 || balancerControl == 1)
    {
      NoFailures(pod);
      var result := GetContainers(pod);
      if result < 0 {
        return;
      }
      if balancerControl == 0 {
        balancerControl := 1;
      }
    }
  }
}
