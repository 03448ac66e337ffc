/**
 The pid caches of the Secondary containers and the loop at the start of `twopa`
 that refreshes them (Monitor/monitor.c). The loop steps over the container
 that follows one whose parent process is gone.
 */
module PidCache {
  import opened Publication

  /** The pids of a container's control group, or nothing when its parent process is gone. */
  datatype Group = NoParent | Tasks(pids: seq<int>)

  function Min(a: nat, b: nat): nat { if a < b then a else b }

  /** `update_pid_cache`: at most MAX_PIDS pids; with no task at all nothing is written. */
  function Cached(slot: SecondarySlot, tasks: seq<int>): SecondarySlot
    requires CacheOk(slot)
  {
    var m := Min(|tasks|, MAX_PIDS);
    if m == 0 then slot else slot.(pids := tasks[..m] + slot.pids[m..], nrPids := m)
  }

  /** A container that the loop comes to; the cache is rewritten when the sizes differ. */
  function Refreshed(slot: SecondarySlot, g: Group): SecondarySlot
    requires CacheOk(slot)
  {
    if g.Tasks? && slot.nrPids != |g.pids| then Cached(slot, g.pids) else slot
  }

  /** Whether the loop comes to container i. */
  predicate ComesTo(world: seq<Group>, i: nat)
    requires i <= |world|
  {
    i == 0 || !(ComesTo(world, i - 1) && world[i - 1].NoParent?)
  }

  /** How many containers without a parent lie directly before container i. */
  function GoneBefore(world: seq<Group>, i: nat): nat
    requires i <= |world|
  {
    if i == 0 || !world[i - 1].NoParent? then 0 else GoneBefore(world, i - 1) + 1
  }

  ghost predicate AllOk(slots: seq<SecondarySlot>) {
    forall i :: 0 <= i < |slots| ==> CacheOk(slots[i])
  }

  /** The first n slots after the loop. */
  function RefreshedAll(slots: seq<SecondarySlot>, world: seq<Group>, n: nat): (r: seq<SecondarySlot>)
    requires n <= |slots| && n <= |world|
    requires forall i :: 0 <= i < |slots| ==> CacheOk(slots[i])
    ensures |r| == n
  {
    if n == 0 then []
    else RefreshedAll(slots, world, n - 1) + [if ComesTo(world, n - 1) then Refreshed(slots[n - 1], world[n - 1]) else slots[n - 1]]
  }

  lemma {:induction false} RefreshedAt(slots: seq<SecondarySlot>, world: seq<Group>, n: nat, i: nat)
    requires i < n <= |slots| && n <= |world| && AllOk(slots)
    ensures RefreshedAll(slots, world, n)[i] == if ComesTo(world, i) then Refreshed(slots[i], world[i]) else slots[i]
  {
    if i < n - 1 {
      RefreshedAt(slots, world, n - 1, i);
    }
  }

  lemma {:induction false} ComesToParity(world: seq<Group>, i: nat)
    requires i <= |world|
    ensures ComesTo(world, i) <==> GoneBefore(world, i) % 2 == 0
  {
    if i > 0 {
      ComesToParity(world, i - 1);
    }
  }

  /** The pids in a cache. */
  function Pids(slot: SecondarySlot): seq<int>
    requires CacheOk(slot)
  {
    slot.pids[..slot.nrPids]
  }

  /** The loop rewrites this cache: it comes to it, and finds a group that is not empty and of another size. */
  predicate Rewritten(slot: SecondarySlot, world: seq<Group>, i: nat)
    requires i < |world|
  {
    && GoneBefore(world, i) % 2 == 0 && world[i].Tasks?
    && slot.nrPids != |world[i].pids| && |world[i].pids| > 0
  }

  /**
   What a container's cache is after the loop: the first 128 pids of the control
   group if it was rewritten, and what it was if not.
   */
  lemma CacheAfter(slots: seq<SecondarySlot>, world: seq<Group>, i: nat)
    requires i < |slots| == |world| && AllOk(slots)
    ensures var r := RefreshedAll(slots, world, |slots|)[i];
            && CacheOk(r)
            && (if Rewritten(slots[i], world, i)
                then r.parentPid == slots[i].parentPid && Pids(r) == world[i].pids[..Min(|world[i].pids|, MAX_PIDS)]
                else r == slots[i])
  {
    RefreshedAt(slots, world, |slots|, i);
    ComesToParity(world, i);
  }

  /**
   Which caches have the right size after the loop, and which the right pids: those
   that had before, and those rewritten with no more than 128 pids, so only if the
   number of parentless containers directly before this one is even. A cache of the
   right size is not looked at.
   */
  lemma UpToDateExactly(slots: seq<SecondarySlot>, world: seq<Group>, i: nat)
    requires i < |slots| == |world| && AllOk(slots) && world[i].Tasks?
    ensures var r := RefreshedAll(slots, world, |slots|)[i];
            && CacheOk(r)
            && (r.nrPids == |world[i].pids| <==>
                || slots[i].nrPids == |world[i].pids|
                || (0 < |world[i].pids| <= MAX_PIDS && GoneBefore(world, i) % 2 == 0))
            && (Pids(r) == world[i].pids <==>
                || Pids(slots[i]) == world[i].pids
                || (slots[i].nrPids != |world[i].pids| && 0 < |world[i].pids| <= MAX_PIDS && GoneBefore(world, i) % 2 == 0))
  {
    CacheAfter(slots, world, i);
    hide RefreshedAll, GoneBefore;
    assert |world[i].pids| <= MAX_PIDS ==> world[i].pids[..|world[i].pids|] == world[i].pids;
  }

  /** A container whose one task has been replaced by another keeps the old one in its cache. */
  lemma ReplacedTaskStaysCached(slots: seq<SecondarySlot>, before: int, after: int)
    requires |slots| == 1 && AllOk(slots) && Pids(slots[0]) == [before] && before != after
    ensures Pids(RefreshedAll(slots, [Tasks([after])], 1)[0]) == [before]
  {
    CacheAfter(slots, [Tasks([after])], 0);
  }

  /** A container whose parent is gone, and after it one whose cache is empty and stays so. */
  lemma GoneParentCostsTheNext(slots: seq<SecondarySlot>, world: seq<Group>, pid: int)
    requires |slots| == 2 && AllOk(slots) && slots[1].nrPids == 0 && world == [NoParent, Tasks([pid])]
    ensures RefreshedAll(slots, world, 2) == slots && slots[1].nrPids != |world[1].pids|
  {
    RefreshedAt(slots, world, 2, 0);
    RefreshedAt(slots, world, 2, 1);
    assert ComesTo(world, 0);
  }
}
