/**
 Idle and active time per core from the log of idle-mask changes
 (`calculateExecTime`, Balancer/logger.c), in unsigned 64-bit arithmetic.
 */
module ExecTime {
  import opened Sets
  import opened MaskLog

  const SECOND := 1_000_000_000
  const TWO64 := 0x1_0000_0000_0000_0000

  function Stamp(m: MaskChange): nat { SECOND * m.sec + m.nsec }

  /** The difference as the source computes it: each part may wrap around. */
  function Elapsed(a: MaskChange, b: MaskChange): nat {
    (SECOND * ((b.sec - a.sec) % TWO64) + (b.nsec - a.nsec) % TWO64) % TWO64
  }

  /** Timestamps do not go back. */
  ghost predicate Ordered(log: seq<MaskChange>) {
    forall e :: 0 <= e < |log| - 1 ==> Stamp(log[e]) <= Stamp(log[e + 1])
  }

  /** The length of the log, which must fit into 64 bits. */
  ghost predicate Fits(log: seq<MaskChange>) {
    |log| > 0 ==> Stamp(log[|log| - 1]) - Stamp(log[0]) < TWO64
  }

  /** The time between entries during which core c was recorded active (or, with on == false, idle). */
  function Spent(log: seq<MaskChange>, c: int, on: bool): nat {
    if |log| < 2 then 0
    else
      var n := |log| - 1;
      Spent(log[..n], c, on) + if (c in log[n].oldMask) == on then Elapsed(log[n - 1], log[n]) else 0
  }

  function Total(log: seq<MaskChange>): nat {
    if |log| < 2 then 0 else Total(log[..|log| - 1]) + Elapsed(log[|log| - 2], log[|log| - 1])
  }

  lemma ModStep(x: int, y: int)
    ensures (x % TWO64 + y) % TWO64 == (x + y) % TWO64
  {
    var q := x / TWO64;
    assert x + y == TWO64 * q + (x % TWO64 + y);
  }

  /** The wrapped difference of the parts is the difference of the timestamps. */
  lemma ElapsedIsDifference(a: MaskChange, b: MaskChange)
    requires 0 <= Stamp(b) - Stamp(a) < TWO64
    ensures Elapsed(a, b) == Stamp(b) - Stamp(a)
  {
    var s, n := b.sec - a.sec, b.nsec - a.nsec;
    var s64, n64 := s % TWO64, n % TWO64;
    var qs, qn := s / TWO64, n / TWO64;
    assert s == TWO64 * qs + s64 && n == TWO64 * qn + n64;
    assert SECOND * s64 + n64 == (SECOND * s + n) - TWO64 * (SECOND * qs + qn);
    Whole(SECOND * s + n, SECOND * qs + qn);
  }

  lemma Whole(x: int, q: int)
    requires 0 <= x < TWO64
    ensures (x - TWO64 * q) % TWO64 == x
  {}

  lemma Small(x: nat)
    requires x < TWO64
    ensures x % TWO64 == x
  {}

  lemma OrderedFits(log: seq<MaskChange>)
    requires Ordered(log) && Fits(log) && |log| > 1
    ensures Ordered(log[..|log| - 1]) && Fits(log[..|log| - 1])
    ensures Stamp(log[0]) <= Stamp(log[|log| - 2])
    ensures 0 <= Stamp(log[|log| - 1]) - Stamp(log[|log| - 2]) < TWO64
    decreases |log|
  {
    var n := |log| - 1;
    assert Stamp(log[n - 1]) <= Stamp(log[n]);
    StampsFrom(log, n - 1);
  }

  lemma {:induction false} StampsFrom(log: seq<MaskChange>, e: nat)
    requires Ordered(log) && e < |log|
    ensures Stamp(log[0]) <= Stamp(log[e])
  {
    if e > 0 {
      StampsFrom(log, e - 1);
    }
  }

  /** The total telescopes, and every core's idle and active time make it up. */
  lemma {:induction false} TimeIsConserved(log: seq<MaskChange>, c: int)
    requires |log| > 0 && Ordered(log) && Fits(log)
    ensures Total(log) == Stamp(log[|log| - 1]) - Stamp(log[0])
    ensures Spent(log, c, true) + Spent(log, c, false) == Total(log)
  {
    if |log| > 1 {
      var n := |log| - 1;
      OrderedFits(log);
      TimeIsConserved(log[..n], c);
      ElapsedIsDifference(log[n - 1], log[n]);
    }
  }

  // The integral of the recorded bit

  /** The mask in force at instant t, from the latest entry not after t. */
  function MaskAt(log: seq<MaskChange>, t: int): set<int> {
    if |log| == 0 then {}
    else if Stamp(log[|log| - 1]) <= t then log[|log| - 1].newMask
    else MaskAt(log[..|log| - 1], t)
  }

  /** The instants of the log at which core c was active. */
  function ActiveInstants(log: seq<MaskChange>, c: int): set<int>
    requires |log| > 0
  {
    set t: int | Stamp(log[0]) <= t < Stamp(log[|log| - 1]) && c in MaskAt(log, t)
  }

  predicate Within(a: int, t: int, b: int) { a <= t < b }

  function Interval(a: int, b: int): set<int> {
    set t: int | a <= t < b && Within(a, t, b)
  }

  lemma {:induction false} IntervalSize(a: int, b: int)
    requires a <= b
    ensures |Interval(a, b)| == b - a
    decreases b - a
  {
    if a < b {
      IntervalSize(a, b - 1);
      assert Interval(a, b) == Interval(a, b - 1) + {b - 1};
    } else {
      assert Interval(a, b) == {};
    }
  }

  /** The instants that a further entry adds: the whole interval before it, or none. */
  lemma InstantsNext(log: seq<MaskChange>, c: int)
    requires |log| > 1 && Stamp(log[0]) <= Stamp(log[|log| - 2]) <= Stamp(log[|log| - 1])
    requires log[|log| - 1].oldMask == log[|log| - 2].newMask
    ensures var n := |log| - 1;
            var last := if c in log[n].oldMask then Interval(Stamp(log[n - 1]), Stamp(log[n])) else {};
            var before := ActiveInstants(log[..n], c);
            ActiveInstants(log, c) == before + last && before !! last
  {
    var n := |log| - 1;
    forall t | Stamp(log[0]) <= t < Stamp(log[n])
      ensures MaskAt(log, t) == if t < Stamp(log[n - 1]) then MaskAt(log[..n], t) else log[n].oldMask
    {
      assert MaskAt(log, t) == MaskAt(log[..n], t);
    }
  }

  /**
   A core's active time is the number of instants at which the mask in force had
   its bit set: each entry starts from the mask the one before ended with.
   */
  lemma {:induction false} ActiveIsIntegral(log: seq<MaskChange>, c: int)
    requires |log| > 0 && Ordered(log) && Fits(log)
    requires forall e :: 0 <= e < |log| - 1 ==> log[e + 1].oldMask == log[e].newMask
    ensures Spent(log, c, true) == |ActiveInstants(log, c)|
  {
    var n := |log| - 1;
    if n == 0 {
      assert ActiveInstants(log, c) == {};
    } else {
      OrderedFits(log);
      ActiveIsIntegral(log[..n], c);
      assert log[n - 1 + 1].oldMask == log[n - 1].newMask;
      hide Interval, ActiveInstants;
      ElapsedIsDifference(log[n - 1], log[n]);
      InstantsNext(log, c);
      IntervalSize(Stamp(log[n - 1]), Stamp(log[n]));
    }
  }

  /** The accumulators of one CPU. */
  datatype ExecTimes = ExecTimes(idle: int, active: int)

  ghost predicate CpusOk(cpus: seq<int>) {
    NoDup(cpus) && forall k :: 0 <= k < |cpus| ==> 0 <= cpus[k] < 64
  }

  /** What the log so far amounts to for core c, in 64 bits. */
  function Times(log: seq<MaskChange>, c: int): ExecTimes {
    ExecTimes(Spent(log, c, false) % TWO64, Spent(log, c, true) % TWO64)
  }

  function Added(u: ExecTimes, on: bool, elapsed: nat): ExecTimes {
    if on then u.(active := (u.active + elapsed) % TWO64) else u.(idle := (u.idle + elapsed) % TWO64)
  }

  lemma TimesNext(log: seq<MaskChange>, e: nat, c: int)
    requires e + 1 < |log|
    ensures Times(log[..e + 2], c) == Added(Times(log[..e + 1], c), c in log[e + 1].oldMask, Elapsed(log[e], log[e + 1]))
    ensures Total(log[..e + 2]) == Total(log[..e + 1]) + Elapsed(log[e], log[e + 1])
  {
    var before := log[..e + 1];
    assert log[..e + 2][..e + 1] == before;
    ModStep(Spent(before, c, true), Elapsed(log[e], log[e + 1]));
    ModStep(Spent(before, c, false), Elapsed(log[e], log[e + 1]));
    ModStep(Spent(before, c, true), 0);
    ModStep(Spent(before, c, false), 0);
  }

  /** The accounting loop, with its accumulators. */
  class Accounting {
    var utilization: seq<ExecTimes>
    var totalExecTime: int

    constructor ()
      ensures |utilization| == 64 && totalExecTime == 0
      ensures forall c :: 0 <= c < 64 ==> utilization[c] == ExecTimes(0, 0)
    {
      utilization := seq(64, _ => ExecTimes(0, 0));
      totalExecTime := 0;
    }

    method CalculateExecTime(log: seq<MaskChange>, cpus: seq<int>)
      requires |log| > 0 && CpusOk(cpus) && |utilization| == 64 && totalExecTime == 0
      requires forall c :: 0 <= c < 64 ==> utilization[c] == ExecTimes(0, 0)
      modifies this
      ensures |utilization| == 64 && totalExecTime == Total(log) % TWO64
      ensures forall k :: 0 <= k < |cpus| ==> utilization[cpus[k]] == Times(log, cpus[k])
    {
      for e := 0 to |log| - 1
        invariant |utilization| == 64 && totalExecTime == Total(log[..e + 1]) % TWO64
        invariant forall k :: 0 <= k < |cpus| ==> utilization[cpus[k]] == Times(log[..e + 1], cpus[k])
      {
        var elapsed := (SECOND * ((log[e + 1].sec - log[e].sec) % TWO64) + (log[e + 1].nsec - log[e].nsec) % TWO64) % TWO64;
        TimesNext(log, e, 0);
        ModStep(Total(log[..e + 1]), elapsed);
        totalExecTime := (totalExecTime + elapsed) % TWO64;
        ghost var before := utilization;
        AddToCores(log[e + 1].oldMask, elapsed, cpus);
        forall k | 0 <= k < |cpus| ensures utilization[cpus[k]] == Times(log[..e + 2], cpus[k]) {
          assert before[cpus[k]] == Times(log[..e + 1], cpus[k]);
          TimesNext(log, e, cpus[k]);
        }
      }
      assert log[..|log|] == log;
    }

    /** The inner loop: the time since the last entry goes to every core's active or idle time. */
    method AddToCores(mask: set<int>, elapsed: nat, cpus: seq<int>)
      requires CpusOk(cpus) && |utilization| == 64
      modifies `utilization
      ensures |utilization| == 64
      ensures forall k :: 0 <= k < |cpus| ==> utilization[cpus[k]] == Added(old(utilization)[cpus[k]], cpus[k] in mask, elapsed)
    {
      for k := 0 to |cpus|
        invariant |utilization| == 64
        invariant forall j :: 0 <= j < k ==> utilization[cpus[j]] == Added(old(utilization)[cpus[j]], cpus[j] in mask, elapsed)
        invariant forall j :: k <= j < |cpus| ==> utilization[cpus[j]] == old(utilization)[cpus[j]]
      {
        var c := cpus[k];
        var u := utilization[c];
        if c in mask {
          utilization := utilization[c := u.(active := (u.active + elapsed) % TWO64)];
        } else {
          utilization := utilization[c := u.(idle := (u.idle + elapsed) % TWO64)];
        }
      }
    }
  }

  /**
   With a log as the polling loop keeps it, that fits into 64 bits, the accumulators are exact: every CPU's idle
   and active time make up the total, which is the time the log spans, and the
   active time is the integral of the recorded bit.
   */
  lemma AccumulatorsExact(log: seq<MaskChange>, current: set<int>, c: int)
    requires |log| > 0 && Chained(log, current) && Ordered(log) && Fits(log)
    ensures var u := Times(log, c);
            && u.idle + u.active == Total(log) % TWO64 == Stamp(log[|log| - 1]) - Stamp(log[0])
            && u.active == |ActiveInstants(log, c)|
  {
    TimeIsConserved(log, c);
    ActiveIsIntegral(log, c);
    hide Spent, Total, ActiveInstants, Chained, Ordered;
    Small(Total(log));
    Small(Spent(log, c, true));
    Small(Spent(log, c, false));
  }
}
