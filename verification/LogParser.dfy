/**
 The log analysis of TestFramework/Tools/parse_cpulogger2.py: time per core and
 time per number of active cores, both attributed to the mask of the line before.
 */
module LogParser {
  import opened Sets

  datatype Line = Line(sec: int, nsec: int, mask: set<int>)

  /** The tables the script fills. */
  datatype Tables = Tables(perCore: map<int, int>, perCount: seq<int>, events: seq<int>)

  datatype Result = NoLine | Parsed(tables: Tables)

  function Stamp(l: Line): int { 1_000_000_000 * l.sec + l.nsec }

  function ActiveCount(cpus: seq<int>, mask: set<int>): (n: nat)
    ensures n <= |cpus|
  {
    if |cpus| == 0 then 0 else ActiveCount(cpus[..|cpus| - 1], mask) + if cpus[|cpus| - 1] in mask then 1 else 0
  }

  // What the tables hold, from the definition of the quantities

  /** The time during which core c was active. */
  function CoreTime(lines: seq<Line>, c: int): int {
    if |lines| < 2 then 0
    else
      var n := |lines| - 1;
      CoreTime(lines[..n], c) + if c in lines[n - 1].mask then Stamp(lines[n]) - Stamp(lines[n - 1]) else 0
  }

  /** The time during which exactly k cores were active. */
  function CountTime(lines: seq<Line>, cpus: seq<int>, k: int): int {
    if |lines| < 2 then 0
    else
      var n := |lines| - 1;
      CountTime(lines[..n], cpus, k)
      + if ActiveCount(cpus, lines[n - 1].mask) == k then Stamp(lines[n]) - Stamp(lines[n - 1]) else 0
  }

  /** The number of lines followed by another at which exactly k cores were active. */
  function CountEvents(lines: seq<Line>, cpus: seq<int>, k: int): nat {
    if |lines| < 2 then 0
    else CountEvents(lines[..|lines| - 1], cpus, k) + if ActiveCount(cpus, lines[|lines| - 2].mask) == k then 1 else 0
  }

  // Sums over the tables

  function SumTo(f: int -> int, n: nat): int {
    if n == 0 then 0 else SumTo(f, n - 1) + f(n - 1)
  }

  function SumOver(f: int -> int, cpus: seq<int>): int {
    if |cpus| == 0 then 0 else SumOver(f, cpus[..|cpus| - 1]) + f(cpus[|cpus| - 1])
  }

  lemma {:induction false} SumToPoint(f: int -> int, g: int -> int, k: nat, d: int, n: nat)
    requires forall j :: f(j) == g(j) + if j == k then d else 0
    ensures SumTo(f, n) == SumTo(g, n) + if k < n then d else 0
  {
    if n > 0 {
      SumToPoint(f, g, k, d, n - 1);
    }
  }

  /** The sum of k * f(k). */
  function WeightedTo(f: int -> int, n: nat): int {
    if n == 0 then 0 else WeightedTo(f, n - 1) + (n - 1) * f(n - 1)
  }

  lemma {:induction false} WeightedToPoint(f: int -> int, g: int -> int, k: nat, d: int, n: nat)
    requires forall j :: f(j) == g(j) + if j == k then d else 0
    ensures WeightedTo(f, n) == WeightedTo(g, n) + if k < n then k * d else 0
  {
    if n > 0 {
      WeightedToPoint(f, g, k, d, n - 1);
      if n - 1 == k {
        assert (n - 1) * f(n - 1) == (n - 1) * g(n - 1) + k * d;
      }
    }
  }

  lemma {:induction false} WeightedToNothing(f: int -> int, n: nat)
    requires forall j :: f(j) == 0
    ensures WeightedTo(f, n) == 0
  {
    if n > 0 {
      WeightedToNothing(f, n - 1);
    }
  }

  lemma {:induction false} SumOverMask(f: int -> int, g: int -> int, cpus: seq<int>, mask: set<int>, d: int)
    requires forall c :: f(c) == g(c) + if c in mask then d else 0
    ensures SumOver(f, cpus) == SumOver(g, cpus) + ActiveCount(cpus, mask) * d
  {
    if |cpus| > 0 {
      SumOverMask(f, g, cpus[..|cpus| - 1], mask, d);
    }
  }

  lemma {:induction false} SumToNothing(f: int -> int, n: nat)
    requires forall j :: f(j) == 0
    ensures SumTo(f, n) == 0
  {
    if n > 0 {
      SumToNothing(f, n - 1);
    }
  }

  lemma {:induction false} SumOverNothing(f: int -> int, cpus: seq<int>)
    requires forall j :: f(j) == 0
    ensures SumOver(f, cpus) == 0
  {
    if |cpus| > 0 {
      SumOverNothing(f, cpus[..|cpus| - 1]);
    }
  }

  /** Counting the active time by core and by number of active cores comes to the same. */
  lemma {:induction false} DoubleCounting(lines: seq<Line>, cpus: seq<int>)
    requires |lines| > 0
    ensures WeightedTo(k => CountTime(lines, cpus, k), |cpus| + 1) == SumOver(c => CoreTime(lines, c), cpus)
  {
    if |lines| == 1 {
      WeightedToNothing(k => CountTime(lines, cpus, k), |cpus| + 1);
      SumOverNothing(c => CoreTime(lines, c), cpus);
    } else {
      var n := |lines| - 1;
      var before := lines[..n];
      var d, a := Stamp(lines[n]) - Stamp(lines[n - 1]), ActiveCount(cpus, lines[n - 1].mask);
      DoubleCounting(before, cpus);
      WeightedToPoint(k => CountTime(lines, cpus, k), k => CountTime(before, cpus, k), a, d, |cpus| + 1);
      SumOverMask(c => CoreTime(lines, c), c => CoreTime(before, c), cpus, lines[n - 1].mask, d);
    }
  }

  /** The times by number of active cores make up the whole log... */
  lemma {:induction false} TimesMakeUpTheLog(lines: seq<Line>, cpus: seq<int>)
    requires |lines| > 0
    ensures SumTo(k => CountTime(lines, cpus, k), |cpus| + 1) == Stamp(lines[|lines| - 1]) - Stamp(lines[0])
  {
    if |lines| == 1 {
      SumToNothing(k => CountTime(lines, cpus, k), |cpus| + 1);
    } else {
      var n := |lines| - 1;
      var before := lines[..n];
      var d, a := Stamp(lines[n]) - Stamp(lines[n - 1]), ActiveCount(cpus, lines[n - 1].mask);
      TimesMakeUpTheLog(before, cpus);
      SumToPoint(k => CountTime(lines, cpus, k), k => CountTime(before, cpus, k), a, d, |cpus| + 1);
    }
  }

  /** ... and the events all of its lines but the last. */
  lemma {:induction false} EventsMakeUpTheLog(lines: seq<Line>, cpus: seq<int>)
    requires |lines| > 0
    ensures SumTo(k => CountEvents(lines, cpus, k), |cpus| + 1) == |lines| - 1
  {
    if |lines| == 1 {
      SumToNothing(k => CountEvents(lines, cpus, k), |cpus| + 1);
    } else {
      var n := |lines| - 1;
      var before := lines[..n];
      var a := ActiveCount(cpus, lines[n - 1].mask);
      EventsMakeUpTheLog(before, cpus);
      SumToPoint(k => CountEvents(lines, cpus, k), k => CountEvents(before, cpus, k), a, 1, |cpus| + 1);
    }
  }

  /** How often a core is listed. */
  function Occurrences(cpus: seq<int>, c: int): nat {
    if |cpus| == 0 then 0 else Occurrences(cpus[..|cpus| - 1], c) + if cpus[|cpus| - 1] == c then 1 else 0
  }

  lemma {:induction false} SumOverPoint(f: int -> int, g: int -> int, keys: seq<int>, x: int, d: int)
    requires NoDup(keys) && forall c :: f(c) == g(c) + if c == x then d else 0
    ensures SumOver(f, keys) == SumOver(g, keys) + if x in keys then d else 0
  {
    if |keys| > 0 {
      var n := |keys| - 1;
      SumOverPoint(f, g, keys[..n], x, d);
      assert x in keys <==> x in keys[..n] || x == keys[n];
    }
  }

  lemma OccursStep(f: int -> int, cpus: seq<int>, c: int)
    requires |cpus| > 0
    ensures var rest, x := cpus[..|cpus| - 1], cpus[|cpus| - 1];
            Occurrences(cpus, c) * f(c) == Occurrences(rest, c) * f(c) + if c == x then f(x) else 0
  {
    assert Occurrences(cpus, c) == Occurrences(cpus[..|cpus| - 1], c) + if c == cpus[|cpus| - 1] then 1 else 0;
  }

  /** The sum over the keys of a table, each with its occurrences, is the sum over the list. */
  lemma {:induction false} KeysOrList(f: int -> int, keys: seq<int>, cpus: seq<int>)
    requires NoDup(keys) && forall c | c in cpus :: c in keys
    ensures SumOver(c => Occurrences(cpus, c) * f(c), keys) == SumOver(f, cpus)
  {
    if |cpus| == 0 {
      assert forall c :: Occurrences(cpus, c) * f(c) == 0;
      SumOverNothing(c => Occurrences(cpus, c) * f(c), keys);
    } else {
      var rest, x := cpus[..|cpus| - 1], cpus[|cpus| - 1];
      assert x in keys;
      KeysOrList(f, keys, rest);
      assert SumOver(f, cpus) == SumOver(f, rest) + f(x);
      hide Occurrences, SumOver, NoDup;
      forall c ensures Occurrences(cpus, c) * f(c) == Occurrences(rest, c) * f(c) + if c == x then f(x) else 0 {
        OccursStep(f, cpus, c);
      }
      SumOverPoint(c => Occurrences(cpus, c) * f(c), c => Occurrences(rest, c) * f(c), keys, x, f(x));
    }
  }

  // The script

  method GetActiveCount(cpus: seq<int>, mask: set<int>) returns (ctr: nat)
    ensures ctr == ActiveCount(cpus, mask)
  {
    ctr := 0;
    for k := 0 to |cpus|
      invariant ctr == ActiveCount(cpus[..k], mask)
    {
      assert cpus[..k + 1][..k] == cpus[..k];
      if cpus[k] in mask {
        ctr := ctr + 1;
      }
    }
    assert cpus[..|cpus|] == cpus;
  }

  /** The loop over the listed cores; one that is listed twice is added to twice. */
  method AddToCores(times: map<int, int>, cpus: seq<int>, mask: set<int>, elapsed: int) returns (r: map<int, int>)
    requires times.Keys == Elems(cpus)
    ensures r.Keys == Elems(cpus)
    ensures forall c | c in cpus :: r[c] == times[c] + if c in mask then Occurrences(cpus, c) * elapsed else 0
  {
    r := times;
    for k := 0 to |cpus|
      invariant r.Keys == Elems(cpus)
      invariant forall c | c in cpus :: r[c] == times[c] + if c in mask then Occurrences(cpus[..k], c) * elapsed else 0
    {
      hide Occurrences;
      OneMore(cpus, k, elapsed);
      if cpus[k] in mask {
        r := r[cpus[k] := r[cpus[k]] + elapsed];
      }
    }
    assert cpus[..|cpus|] == cpus;
  }

  lemma OneMore(cpus: seq<int>, k: nat, elapsed: int)
    requires k < |cpus|
    ensures cpus[k] in Elems(cpus)
    ensures forall c :: Occurrences(cpus[..k + 1], c) * elapsed
                     == Occurrences(cpus[..k], c) * elapsed + if c == cpus[k] then elapsed else 0
  {
    assert cpus[..k + 1][..k] == cpus[..k];
    forall c
      ensures Occurrences(cpus[..k + 1], c) * elapsed
           == Occurrences(cpus[..k], c) * elapsed + if c == cpus[k] then elapsed else 0
    {
      assert Occurrences(cpus[..k + 1], c) == Occurrences(cpus[..k], c) + if c == cpus[k] then 1 else 0;
    }
  }

  ghost predicate Holds(t: Tables, lines: seq<Line>, cpus: seq<int>) {
    && t.perCore.Keys == Elems(cpus) && |t.perCount| == |t.events| == |cpus| + 1
    && (forall c | c in cpus :: t.perCore[c] == Occurrences(cpus, c) * CoreTime(lines, c))
    && (forall k :: 0 <= k <= |cpus| ==> t.perCount[k] == CountTime(lines, cpus, k))
    && (forall k :: 0 <= k <= |cpus| ==> t.events[k] == CountEvents(lines, cpus, k))
  }

  /** What one more line adds to the tables. */
  lemma LineAdds(lines: seq<Line>, cpus: seq<int>, n: nat)
    requires 0 < n < |lines|
    ensures var d, mask := Stamp(lines[n]) - Stamp(lines[n - 1]), lines[n - 1].mask;
            && (forall c :: CoreTime(lines[..n + 1], c) == CoreTime(lines[..n], c) + if c in mask then d else 0)
            && (forall k :: CountTime(lines[..n + 1], cpus, k)
                         == CountTime(lines[..n], cpus, k) + if ActiveCount(cpus, mask) == k then d else 0)
            && (forall k :: CountEvents(lines[..n + 1], cpus, k)
                         == CountEvents(lines[..n], cpus, k) + if ActiveCount(cpus, mask) == k then 1 else 0)
  {
    assert lines[..n + 1][..n] == lines[..n];
  }

  lemma HoldsNext(t: Tables, u: Tables, lines: seq<Line>, cpus: seq<int>, n: nat)
    requires 0 < n < |lines| && Holds(t, lines[..n], cpus) && u.perCore.Keys == Elems(cpus)
    requires var d, mask := Stamp(lines[n]) - Stamp(lines[n - 1]), lines[n - 1].mask;
             var active := ActiveCount(cpus, mask);
             && (forall c | c in cpus :: u.perCore[c] == t.perCore[c] + if c in mask then Occurrences(cpus, c) * d else 0)
             && u.perCount == t.perCount[active := t.perCount[active] + d]
             && u.events == t.events[active := t.events[active] + 1]
    ensures Holds(u, lines[..n + 1], cpus)
  {
    LineAdds(lines, cpus, n);
    hide CoreTime, CountTime, CountEvents, ActiveCount, Occurrences;
    var d, mask := Stamp(lines[n]) - Stamp(lines[n - 1]), lines[n - 1].mask;
    forall c | c in cpus ensures u.perCore[c] == Occurrences(cpus, c) * CoreTime(lines[..n + 1], c) {
      Distribute(Occurrences(cpus, c), CoreTime(lines[..n], c), if c in mask then d else 0);
    }
  }

  lemma TablesShape(t: Tables, lines: seq<Line>, cpus: seq<int>)
    requires Holds(t, lines, cpus)
    ensures t.perCore.Keys == Elems(cpus) && |t.perCount| == |t.events| == |cpus| + 1
  {}

  lemma Distribute(k: int, x: int, y: int)
    ensures k * (x + y) == k * x + k * y
  {}

  method ParseLog(lines: seq<Line>, cpus: seq<int>) returns (r: Result)
    ensures r.NoLine? <==> lines == []
    ensures r.Parsed? ==> Holds(r.tables, lines, cpus)
  {
    if |lines| == 0 {
      return NoLine;
    }
    var perCore := map c | c in cpus :: 0;
    var perCount := seq(|cpus| + 1, _ => 0);
    var events := seq(|cpus| + 1, _ => 0);
    var lastTs, mask := Stamp(lines[0]), lines[0].mask;
    for n := 1 to |lines|
      invariant lastTs == Stamp(lines[n - 1]) && mask == lines[n - 1].mask
      invariant Holds(Tables(perCore, perCount, events), lines[..n], cpus)
    {
      hide Holds, Occurrences, ActiveCount;
      ghost var before := Tables(perCore, perCount, events);
      TablesShape(before, lines[..n], cpus);
      var thisTs := Stamp(lines[n]);
      var elapsed := thisTs - lastTs;
      perCore := AddToCores(perCore, cpus, mask, elapsed);
      var active := GetActiveCount(cpus, mask);
      perCount := perCount[active := perCount[active] + elapsed];
      events := events[active := events[active] + 1];
      HoldsNext(before, Tables(perCore, perCount, events), lines, cpus, n);
      lastTs, mask := thisTs, lines[n].mask;
    }
    assert lines[..|lines|] == lines;
    r := Parsed(Tables(perCore, perCount, events));
  }
}
