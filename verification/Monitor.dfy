/**
 The Monitor's serving side (Monitor/monitor.c): the loops of `twopa` over the
 containers in the shared block and over their tasks, proved against the
 functions of `PidCache` and `Placement`.
 */
module Monitor {
  import opened Sets
  import opened Requests
  import opened Publication
  import opened PidCache
  import opened Placement

  /** The containers as phases 1 and 2 go through them: the first n caches, with what is seen of their tasks. */
  ghost function Containers(slots: seq<SecondarySlot>, seen: seq<seq<Sighting>>, alive: seq<seq<bool>>, n: nat): (cs: seq<Container>)
    requires n <= |slots| == |seen| == |alive| && AllOk(slots)
    requires forall i :: 0 <= i < |slots| ==> |seen[i]| == |alive[i]| == MAX_PIDS
    ensures |cs| == n && forall c | c in cs :: c.Valid()
  {
    if n == 0 then []
    else
      var m := slots[n - 1].nrPids;
      Containers(slots, seen, alive, n - 1) + [Container(slots[n - 1].pids[..m], seen[n - 1][..m], alive[n - 1][..m])]
  }

  lemma {:induction false} StoppedStays(b: Block, w: Walk, pids: seq<int>, seen: seq<Sighting>, k: nat, n: nat)
    requires b.Valid() && k <= n <= |pids| && n <= |seen| && n <= MAX_PIDS && w.cursor <= b.num
    requires Walked(b, w, pids, seen, k).stopped
    ensures Walked(b, w, pids, seen, n) == Walked(b, w, pids, seen, k)
  {
    if k < n {
      StoppedStays(b, w, pids, seen, k, n - 1);
    }
  }

  class Process {
    /** The affinity list and the words of the shared block behind it. */
    const words: array<int>
    var num: nat
    var needs: int
    const dedicated: seq<int>

    /** The published Secondary slots. */
    var secondaries: seq<SecondarySlot>

    /** The CPUs that the kernel allows each task. */
    var affinity: map<int, set<int>>

    constructor (words: array<int>, num: nat, needs: int, dedicated: seq<int>,
                 secondaries: seq<SecondarySlot>, affinity: map<int, set<int>>)
      ensures this.words == words && this.num == num && this.needs == needs && this.dedicated == dedicated
      ensures this.secondaries == secondaries && this.affinity == affinity
    {
      this.words, this.num, this.needs, this.dedicated := words, num, needs, dedicated;
      this.secondaries, this.affinity := secondaries, affinity;
    }

    ghost function Read(): Block
      reads this, words
    {
      Block(needs, words[..], num, dedicated)
    }

    /** `set_cpus_allowed_ptr`. */
    method SetCpusAllowed(pid: int, mask: set<int>)
      modifies `affinity
      ensures affinity == Allow(old(affinity), pid, mask)
    {
      if mask != {} && pid in affinity {
        affinity := affinity[pid := mask];
      }
    }

    /** A group's pids written over the cache, until it is full. */
    static method UpdatePidCache(slot: SecondarySlot, tasks: seq<int>) returns (r: SecondarySlot)
      requires CacheOk(slot)
      ensures r == Cached(slot, tasks)
    {
      r := slot;
      var k := 0;
      while k < |tasks|
        invariant k <= |tasks| && k < MAX_PIDS
        invariant r.parentPid == slot.parentPid && r.pids == tasks[..k] + slot.pids[k..]
        invariant r.nrPids == if k == 0 then slot.nrPids else k
      {
        r := r.(pids := r.pids[k := tasks[k]]);
        k := k + 1;
        r := r.(nrPids := k);
        if k > 127 {
          return;
        }
      }
    }

    /** The first loop of `twopa`; a missing parent process costs the next container its turn. */
    method RefreshCaches(world: seq<Group>)
      requires AllOk(secondaries) && |world| == |secondaries|
      modifies `secondaries
      ensures secondaries == RefreshedAll(old(secondaries), world, |world|) && AllOk(secondaries)
    {
      ghost var before := secondaries;
      forall i | 0 <= i < |world|
        ensures RefreshedAll(before, world, |world|)[i]
             == if ComesTo(world, i) then Refreshed(before[i], world[i]) else before[i]
      {
        RefreshedAt(before, world, |world|, i);
      }
      hide RefreshedAll, Cached;
      var i := 0;
      while i < |secondaries|
        invariant 0 <= i && |secondaries| == |before| && (i <= |world| ==> ComesTo(world, i))
        invariant forall j :: 0 <= j < i && j < |world| ==> secondaries[j] == RefreshedAll(before, world, |world|)[j]
        invariant forall j :: i <= j < |world| ==> secondaries[j] == before[j]
        decreases |secondaries| - i
      {
        assert CacheOk(secondaries[i]);
        match world[i] {
          case NoParent =>
            i := i + 1;
          case Tasks(pids) =>
            if secondaries[i].nrPids != |pids| {
              var slot := UpdatePidCache(secondaries[i], pids);
              secondaries := secondaries[i := slot];
            }
        }
        i := i + 1;
      }
    }

    /** Phase 1 for one container, from the locals of `twopa` to their new values. */
    method PhaseOne(pids: seq<int>, seen: seq<Sighting>, marked0: set<int>, placements0: nat, cursor0: nat, ghost w: Walk)
      returns (marked: set<int>, placements: nat, cursor: nat, ghost r: Walk)
      requires Read().Valid() && |pids| == |seen| <= MAX_PIDS && cursor0 <= num
      requires w == Walk(marked0, placements0, cursor0, false, affinity, w.log)
      modifies `affinity
      ensures r == Walked(old(Read()), w, pids, seen, |pids|)
      ensures marked == r.marked && placements == r.placements && cursor == r.cursor && affinity == r.affinity
    {
      marked, placements, cursor := marked0, placements0, cursor0;
      ghost var b := Read();
      r := w;
      for k := 0 to |pids|
        invariant Read() == b && r == Walked(b, w, pids, seen, k) && !r.stopped
        invariant marked == r.marked && placements == r.placements && cursor == r.cursor && affinity == r.affinity
      {
        r := Visited(b, r, pids[k], seen[k]);
        if !seen[k].RunningOn? {
          continue;
        }
        var cpu := seen[k].cpu;
        if cpu !in marked {
          marked := marked + {cpu};
          placements := placements + 1;
          continue;
        }
        if words[cursor] == cpu {
          cursor := cursor + 1;
        }
        if cursor == num {
          cursor := 0;
        }
        SetCpusAllowed(pids[k], {words[cursor]});
        marked := marked + {words[cursor]};
        placements := placements + 1;
        if placements == num {
          StoppedStays(b, w, pids, seen, k + 1, |pids|);
          return;
        }
        cursor := cursor + 1;
      }
    }

    /** The dedicated cores and the listed ones, one by one. */
    method FullMask() returns (mask: set<int>)
      requires Read().Valid()
      ensures mask == Read().Union()
    {
      mask := {};
      for k := 0 to |dedicated|
        invariant mask == Elems(dedicated[..k])
      {
        assert dedicated[..k + 1] == dedicated[..k] + [dedicated[k]];
        mask := mask + {dedicated[k]};
      }
      assert dedicated[..|dedicated|] == dedicated;
      for k := 0 to num
        invariant mask == Elems(dedicated) + Elems(words[..k])
      {
        assert words[..k + 1] == words[..k] + [words[k]];
        mask := mask + {words[k]};
      }
      assert words[..][..num] == words[..num];
    }

    /** Phase 2 for one container. */
    method PhaseTwo(pids: seq<int>, alive: seq<bool>, mask: set<int>)
      requires |pids| == |alive|
      modifies `affinity
      ensures affinity == Spread(old(affinity), mask, pids, alive, |pids|)
    {
      for k := 0 to |pids|
        invariant affinity == Spread(old(affinity), mask, pids, alive, k)
      {
        if alive[k] {
          SetCpusAllowed(pids[k], mask);
        }
      }
    }

    /** Both phases for every container. */
    method PlaceAll(seen: seq<seq<Sighting>>, alive: seq<seq<bool>>)
      requires Read().Valid() && AllOk(secondaries) && |seen| == |alive| == |secondaries|
      requires forall i :: 0 <= i < |secondaries| ==> |seen[i]| == |alive[i]| == MAX_PIDS
      modifies `affinity
      ensures affinity == TwoPhase(old(Read()), old(affinity), Containers(secondaries, seen, alive, |secondaries|)).affinity
    {
      ghost var b := Read();
      ghost var cs := [];
      ghost var w := Begun(affinity);
      var marked: set<int>, placements: nat, cursor: nat := {}, 0, 0;
      for i := 0 to |secondaries|
        invariant Read() == b && cs == Containers(secondaries, seen, alive, i) && w == TwoPhase(b, old(affinity), cs)
        invariant marked == w.marked && placements == w.placements && cursor == w.cursor && affinity == w.affinity
      {
        assert CacheOk(secondaries[i]);
        var n := secondaries[i].nrPids;
        var pids := secondaries[i].pids[..n];
        ghost var c := Container(pids, seen[i][..n], alive[i][..n]);
        ghost var placed := w;
        if needs == GROW {
          marked, placements, cursor, placed := PhaseOne(pids, seen[i][..n], marked, placements, cursor, w.(stopped := false));
        }
        var mask := FullMask();
        PhaseTwo(pids, alive[i][..n], mask);
        cursor := num;
        assert (cs + [c])[..|cs|] == cs;
        w := Served(b, w, c);
        cs := cs + [c];
      }
    }

    /** `twopa`. */
    method Twopa(world: seq<Group>, seen: seq<seq<Sighting>>, alive: seq<seq<bool>>)
      requires Read().Valid() && AllOk(secondaries) && |world| == |seen| == |alive| == |secondaries|
      requires forall i :: 0 <= i < |secondaries| ==> |seen[i]| == |alive[i]| == MAX_PIDS
      modifies `secondaries, `affinity
      ensures secondaries == RefreshedAll(old(secondaries), world, |world|) && AllOk(secondaries)
      ensures affinity == TwoPhase(old(Read()), old(affinity), Containers(secondaries, seen, alive, |secondaries|)).affinity
    {
      RefreshCaches(world);
      PlaceAll(seen, alive);
    }

    /** The part of `check_idle_cpus` that serves a request and clears the flag. */
    method ServeRequest(world: seq<Group>, seen: seq<seq<Sighting>>, alive: seq<seq<bool>>)
      requires Read().Valid() && AllOk(secondaries) && |world| == |seen| == |alive| == |secondaries|
      requires forall i :: 0 <= i < |secondaries| ==> |seen[i]| == |alive[i]| == MAX_PIDS
      modifies `secondaries, `affinity, `needs
      ensures AllOk(secondaries) && needs <= 0
      ensures if old(needs) > 0 then
                && needs == 0
                && secondaries == RefreshedAll(old(secondaries), world, |world|)
                && affinity == TwoPhase(old(Read()), old(affinity), Containers(secondaries, seen, alive, |secondaries|)).affinity
              else needs == old(needs) && secondaries == old(secondaries) && affinity == old(affinity)
    {
      if needs > 0 {
        Twopa(world, seen, alive);
        needs := 0;
      }
    }
  }
}
