/**
 Which cores one Primary lends to the Secondary (Balancer/balancer.c). A core is
 offered when it is already in the last affinity mask or is idle now; cores are
 taken from the highest position of the Primary's CPU list downwards until the
 number of spare cores is reached.
 */
module Selection {
  import opened Sets

  /** `last` is the affinity mask in force, `active` the CPUs that are not idle. */
  predicate Eligible(c: int, last: set<int>, active: set<int>) {
    c in last || c !in active
  }

  function EligibleCores(cpus: seq<int>, last: set<int>, active: set<int>): set<int> {
    set c | c in cpus && Eligible(c, last, active)
  }

  /** The scan of `cpus` from its last position down. */
  function Picks(cpus: seq<int>, spare: int, last: set<int>, active: set<int>): seq<int> {
    if |cpus| == 0 || spare <= 0 then []
    else
      var rest := cpus[..|cpus| - 1];
      var c := cpus[|cpus| - 1];
      if Eligible(c, last, active) then [c] + Picks(rest, spare - 1, last, active)
      else Picks(rest, spare, last, active)
  }

  /** The members of `mask` in the order of descending position. */
  function Descending(cpus: seq<int>, mask: set<int>): seq<int> {
    if |cpus| == 0 then []
    else
      var rest := Descending(cpus[..|cpus| - 1], mask);
      var c := cpus[|cpus| - 1];
      if c in mask then [c] + rest else rest
  }

  function Min(a: int, b: int): int { if a < b then a else b }

  function Max(a: int, b: int): int { if a > b then a else b }

  /** `x` brought into the range from `lo` to `hi`, `hi` winning. */
  function Clamp(x: int, lo: int, hi: int): int { Min(Max(x, lo), hi) }

  lemma {:induction false} DescendingElems(cpus: seq<int>, mask: set<int>)
    ensures Elems(Descending(cpus, mask)) == Elems(cpus) * mask
    ensures NoDup(cpus) ==> NoDup(Descending(cpus, mask))
  {
    if |cpus| > 0 {
      var rest := cpus[..|cpus| - 1];
      var c := cpus[|cpus| - 1];
      DescendingElems(rest, mask);
      assert cpus == rest + [c];
      ElemsConcat(rest, [c]);
      assert Elems([c]) == {c};
      if NoDup(cpus) {
        assert c !in Elems(rest);
        assert c !in Elems(Descending(rest, mask));
        if c in mask {
          NoDupCons(c, Descending(rest, mask));
        }
      }
      if c in mask {
        ElemsConcat([c], Descending(rest, mask));
      }
    }
  }

  lemma NoDupCons(c: int, s: seq<int>)
    requires NoDup(s) && c !in Elems(s)
    ensures NoDup([c] + s)
  {
    var t := [c] + s;
    forall i, j | 0 <= i < j < |t| ensures t[i] != t[j] {
      assert t[j] in Elems(s);
      if i > 0 {
        assert t[i] == s[i - 1] && t[j] == s[j - 1];
      }
    }
  }

  /** Only the part of the mask on the listed CPUs matters. */
  lemma {:induction false} DescendingFrame(cpus: seq<int>, a: set<int>, b: set<int>)
    requires forall c :: c in cpus ==> (c in a <==> c in b)
    ensures Descending(cpus, a) == Descending(cpus, b)
  {
    if |cpus| > 0 {
      DescendingFrame(cpus[..|cpus| - 1], a, b);
    }
  }

  lemma {:induction false} DescendingNone(cpus: seq<int>)
    ensures Descending(cpus, {}) == []
  {
    if |cpus| > 0 {
      DescendingNone(cpus[..|cpus| - 1]);
    }
  }

  lemma EligibleSplit(cpus: seq<int>, last: set<int>, active: set<int>)
    requires NoDup(cpus) && |cpus| > 0
    ensures var rest, c := EligibleCores(cpus[..|cpus| - 1], last, active), cpus[|cpus| - 1];
            && c !in rest
            && EligibleCores(cpus, last, active) == if Eligible(c, last, active) then rest + {c} else rest
  {
    var rest, c := cpus[..|cpus| - 1], cpus[|cpus| - 1];
    assert cpus == rest + [c];
    assert c !in rest;
  }

  /** The scan picks eligible cores only... */
  lemma {:induction false} PicksEligible(cpus: seq<int>, spare: int, last: set<int>, active: set<int>, c: int)
    requires c in Picks(cpus, spare, last, active)
    ensures c in cpus && Eligible(c, last, active)
  {
    var rest, d := cpus[..|cpus| - 1], cpus[|cpus| - 1];
    if c != d || !Eligible(d, last, active) {
      PicksEligible(rest, if Eligible(d, last, active) then spare - 1 else spare, last, active, c);
    }
  }

  /** ... and as many as asked for, or all there are. */
  lemma {:induction false} PicksCount(cpus: seq<int>, spare: int, last: set<int>, active: set<int>)
    requires NoDup(cpus)
    ensures |Picks(cpus, spare, last, active)| == Min(Max(spare, 0), |EligibleCores(cpus, last, active)|)
  {
    if |cpus| == 0 {
      assert EligibleCores(cpus, last, active) == {};
    } else if spare > 0 {
      EligibleSplit(cpus, last, active);
      PicksCount(cpus[..|cpus| - 1], if Eligible(cpus[|cpus| - 1], last, active) then spare - 1 else spare, last, active);
    }
  }

  /** The order of the picks is fixed by the set picked: descending position. */
  lemma {:induction false} PicksDescending(cpus: seq<int>, spare: int, last: set<int>, active: set<int>)
    requires NoDup(cpus)
    ensures Picks(cpus, spare, last, active) == Descending(cpus, Elems(Picks(cpus, spare, last, active)))
  {
    var p := Picks(cpus, spare, last, active);
    if |cpus| == 0 || spare <= 0 {
      assert Elems(p) == {};
      DescendingNone(cpus);
    } else {
      var rest, c := cpus[..|cpus| - 1], cpus[|cpus| - 1];
      EligibleSplit(cpus, last, active);
      if Eligible(c, last, active) {
        var q := Picks(rest, spare - 1, last, active);
        PicksDescending(rest, spare - 1, last, active);
        assert forall d :: d in rest ==> d != c;
        DescendingFrame(rest, Elems(q), Elems(p));
      } else {
        PicksDescending(rest, spare, last, active);
        forall d | d in Elems(p) ensures d in rest {
          PicksEligible(rest, spare, last, active, d);
        }
      }
    }
  }

  /** Highest positions first: no eligible core above a picked one is passed over. */
  lemma {:induction false} PicksHighest(cpus: seq<int>, spare: int, last: set<int>, active: set<int>, i: int, j: int)
    requires NoDup(cpus)
    requires 0 <= i < j < |cpus|
    requires cpus[i] in Picks(cpus, spare, last, active) && Eligible(cpus[j], last, active)
    ensures cpus[j] in Picks(cpus, spare, last, active)
  {
    var rest, c := cpus[..|cpus| - 1], cpus[|cpus| - 1];
    if j < |cpus| - 1 {
      PicksHighest(rest, if Eligible(c, last, active) then spare - 1 else spare, last, active, i, j);
    }
  }

  ghost predicate HighestFirst(cpus: seq<int>, last: set<int>, active: set<int>, m: set<int>) {
    forall i, j :: 0 <= i < j < |cpus| && cpus[i] in m && Eligible(cpus[j], last, active) ==> cpus[j] in m
  }

  /**
   Those facts leave no choice: a set of eligible cores of that size, highest
   first, is the set the scan picks.
   */
  lemma {:induction false} PicksUnique(cpus: seq<int>, spare: int, last: set<int>, active: set<int>, m: set<int>)
    requires NoDup(cpus)
    requires m <= EligibleCores(cpus, last, active)
    requires |m| == Min(Max(spare, 0), |EligibleCores(cpus, last, active)|)
    requires HighestFirst(cpus, last, active, m)
    ensures Elems(Picks(cpus, spare, last, active)) == m
  {
    var picks := Picks(cpus, spare, last, active);
    var p := Elems(picks);
    PicksCount(cpus, spare, last, active);
    PicksWithin(cpus, spare, last, active);
    PicksNoDup(cpus, spare, last, active);
    NoDupSize(picks);
    if !(m <= p) && !(p <= m) {
      var x :| x in m && x !in p;
      var y :| y in p && y !in m;
      var i :| 0 <= i < |cpus| && cpus[i] == x;
      var j :| 0 <= j < |cpus| && cpus[j] == y;
      if j < i {
        PicksHighest(cpus, spare, last, active, j, i);
      }
    } else if m <= p {
      SameSizeSubset(m, p);
    } else {
      SameSizeSubset(p, m);
    }
  }

  lemma PicksWithin(cpus: seq<int>, spare: int, last: set<int>, active: set<int>)
    ensures Elems(Picks(cpus, spare, last, active)) <= EligibleCores(cpus, last, active)
  {
    forall c | c in Picks(cpus, spare, last, active) ensures c in EligibleCores(cpus, last, active) {
      PicksEligible(cpus, spare, last, active, c);
    }
  }

  lemma PicksNoDup(cpus: seq<int>, spare: int, last: set<int>, active: set<int>)
    requires NoDup(cpus)
    ensures NoDup(Picks(cpus, spare, last, active))
  {
    PicksDescending(cpus, spare, last, active);
    DescendingElems(cpus, Elems(Picks(cpus, spare, last, active)));
  }
}
