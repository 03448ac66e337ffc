/**
 The integrated server's object (harness/client.cpp, harness/tbench_server_integrated.cpp):
 its fields and the critical sections that update them, each proved to do what
 the step of the transition system in `Threads` does. A failed assertion of the
 source is a result here; `CountReq` has raised its count by then.
 */
module Harness {
  import opened Ledger
  import Threads

  /** What a thread keeps of the request it is serving. */
  datatype ReqInfo = ReqInfo(id: nat, startNs: nat)

  class IntegratedServer {
    const config: Config
    const reqInfo: array<ReqInfo>

    var status: Status
    var hasDist: bool
    var lastArrival: nat
    var startedReqs: nat
    var inFlightReqs: map<nat, nat>
    var queueTimes: seq<int>
    var svcTimes: seq<int>
    var sjrnTimes: seq<int>
    var finishedReqs: nat

    ghost function View(): Shared
      reads this
    {
      Shared(status, hasDist, lastArrival, startedReqs, inFlightReqs, queueTimes, svcTimes, sjrnTimes, finishedReqs)
    }

    constructor (nthreads: nat, config: Config)
      ensures View() == FRESH && this.config == config && fresh(reqInfo) && reqInfo.Length == nthreads
    {
      this.config := config;
      reqInfo := new ReqInfo[nthreads](_ => ReqInfo(0, 0));
      status, hasDist, lastArrival, startedReqs, inFlightReqs := Init, false, 0, 0, map[];
      queueTimes, svcTimes, sjrnTimes, finishedReqs := [], [], [], 0;
    }

    /** The critical section between the two startup barriers. */
    method SetUpOnce(now: nat)
      modifies this
      ensures View() == SetUp(old(View()), now)
      ensures hasDist && (old(hasDist) ==> View() == old(View()))
      ensures !old(hasDist) ==> lastArrival == now && status == Warmup && startedReqs == old(startedReqs) && inFlightReqs == old(inFlightReqs)
    {
      if !hasDist {
        hasDist, lastArrival := true, now;
        status := Warmup;
      }
    }

    /** The critical section of `startReq`. */
    method NewReq(gap: nat) returns (id: nat, genNs: nat)
      modifies this
      ensures View() == Issue(old(View()), gap)
      ensures id == old(startedReqs) && genNs == inFlightReqs[id] == lastArrival == old(lastArrival) + gap
      ensures startedReqs == old(startedReqs) + 1 && inFlightReqs == old(inFlightReqs)[id := genNs]
    {
      id := startedReqs;
      startedReqs := startedReqs + 1;
      lastArrival := lastArrival + gap;
      genNs := lastArrival;
      inFlightReqs := inFlightReqs[id := genNs];
    }

    /** Sleeping may end early, so the clock is read until it has got there; the first such reading is returned. */
    static method SleepUntil(targetNs: nat, readings: seq<nat>) returns (curNs: nat)
      requires exists i :: 0 <= i < |readings| && readings[i] >= targetNs
      ensures exists k :: 0 <= k < |readings| && curNs == readings[k] >= targetNs && forall i :: 0 <= i < k ==> readings[i] < targetNs
    {
      ghost var late :| 0 <= late < |readings| && readings[late] >= targetNs;
      curNs := readings[0];
      var next := 1;
      while curNs < targetNs
        invariant 1 <= next <= late + 1 && curNs == readings[next - 1]
        invariant forall i :: 0 <= i < next - 1 ==> readings[i] < targetNs
        decreases |readings| - next
      {
        curNs := readings[next];
        next := next + 1;
      }
      assert curNs == readings[next - 1];
    }

    /** What this object keeps of a thread that is serving a request. */
    ghost function ServingAt(thread: nat): Threads.ThreadAt
      reads reqInfo
      requires thread < reqInfo.Length
    {
      Threads.Serving(reqInfo[thread].id, reqInfo[thread].startNs)
    }

    /** `recvReq` once the request has been issued: the step of a thread that begins its service. */
    method BeginService(thread: nat, id: nat, now: nat, ghost s: Threads.State)
      requires thread < reqInfo.Length == |s.threads| && s.threads[thread] == Threads.Started(id)
      requires Threads.Enabled(s, Threads.Event(thread, now, 0))
      modifies reqInfo
      ensures Threads.Step(s, Threads.Event(thread, now, 0), config).threads == s.threads[thread := ServingAt(thread)]
      ensures forall k :: 0 <= k < reqInfo.Length && k != thread ==> reqInfo[k] == old(reqInfo[k])
    {
      reqInfo[thread] := ReqInfo(id, now);
    }

    /** The start of `sendResp`: the step of a thread that measures its service, which fails when the assertion does. */
    method ServiceTime(thread: nat, now: nat, ghost s: Threads.State) returns (ok: bool, id: nat, svcNs: int)
      requires thread < reqInfo.Length == |s.threads| && s.threads[thread] == ServingAt(thread)
      requires Threads.Enabled(s, Threads.Event(thread, now, 0))
      ensures var t := Threads.Step(s, Threads.Event(thread, now, 0), config);
              (ok <==> !t.failed) && (ok ==> t.threads == s.threads[thread := Threads.Finishing(id, svcNs)])
      ensures id == reqInfo[thread].id && svcNs == now - reqInfo[thread].startNs && (ok <==> svcNs > 0)
    {
      id, svcNs := reqInfo[thread].id, now - reqInfo[thread].startNs;
      ok := now > reqInfo[thread].startNs;
    }

    method FiniReq(id: nat, svcNs: int, now: nat) returns (ok: bool)
      modifies this
      ensures ok == MayFinish(old(View()), id, svcNs, now)
      ensures View() == if ok then Finish(old(View()), id, svcNs, now) else old(View())
      ensures ok <==> && id in old(inFlightReqs)
                      && (old(status).Roi? ==> old(inFlightReqs)[id] < now && old(inFlightReqs)[id] + svcNs <= now)
      ensures ok ==> inFlightReqs == old(inFlightReqs) - {id}
      ensures ok && status.Roi? ==>
                var sjrn := now - old(inFlightReqs)[id];
                && sjrnTimes == old(sjrnTimes) + [sjrn]
                && svcTimes == old(svcTimes) + [svcNs]
                && queueTimes == old(queueTimes) + [sjrn - svcNs]
      ensures !(ok && status.Roi?) ==> sjrnTimes == old(sjrnTimes) && svcTimes == old(svcTimes) && queueTimes == old(queueTimes)
    {
      if id !in inFlightReqs {
        return false;
      }
      var genNs := inFlightReqs[id];
      if status.Roi? {
        if now <= genNs {
          return false;
        }
        var sjrn := now - genNs;
        if sjrn < svcNs {
          return false;
        }
        var qtime := sjrn - svcNs;
        queueTimes := queueTimes + [qtime];
        svcTimes := svcTimes + [svcNs];
        sjrnTimes := sjrnTimes + [sjrn];
      }
      inFlightReqs := inFlightReqs - {id};
      return true;
    }

    method StartRoi() returns (ok: bool)
      modifies this
      ensures ok == old(status).Warmup?
      ensures View() == if ok then old(View()).(status := Roi, queueTimes := [], svcTimes := [], sjrnTimes := []) else old(View())
    {
      ok := status.Warmup?;
      if ok {
        status := Roi;
        queueTimes, svcTimes, sjrnTimes := [], [], [];
      }
    }

    /** The second critical section of `sendResp`; with `dumps`, the statistics are written and the process ends. */
    method CountReq() returns (ok: bool, dumps: bool)
      modifies this
      ensures ok == MayCount(old(View()), config)
      ensures ok ==> View() == Counted(old(View()), config) && dumps == Dumps(old(View()), config)
      ensures !ok ==> View() == old(View()).(finishedReqs := old(finishedReqs) + 1) && !dumps
      ensures finishedReqs == old(finishedReqs) + 1
      ensures ok <==> finishedReqs != config.warmupReqs || old(status).Warmup?
      ensures dumps <==> finishedReqs == config.warmupReqs + config.maxReqs && finishedReqs != config.warmupReqs
      ensures ok ==> status == if finishedReqs == config.warmupReqs then Roi else old(status)
    {
      finishedReqs := finishedReqs + 1;
      ok, dumps := true, false;
      if finishedReqs == config.warmupReqs {
        ok := StartRoi();
      } else if finishedReqs == config.warmupReqs + config.maxReqs {
        dumps := true;
      }
    }

    /** One row per sample, the three times side by side. */
    method DumpStats() returns (rows: seq<(int, int, int)>)
      requires |queueTimes| == |svcTimes| == |sjrnTimes|
      ensures |rows| == |sjrnTimes|
      ensures forall r :: 0 <= r < |rows| ==> rows[r] == (queueTimes[r], svcTimes[r], sjrnTimes[r])
    {
      rows := [];
      for r := 0 to |sjrnTimes|
        invariant |rows| == r && forall k :: 0 <= k < r ==> rows[k] == (queueTimes[k], svcTimes[k], sjrnTimes[k])
      {
        rows := rows + [(queueTimes[r], svcTimes[r], sjrnTimes[r])];
      }
    }
  }
}
