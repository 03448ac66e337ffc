/**
 The bookkeeping that the threads of the integrated server share under one
 mutex (harness/client.cpp, harness/tbench_server_integrated.cpp), on values:
 what each critical section does to it. Times are nanoseconds.
 */
module Ledger {

  datatype Status = Init | Warmup | Roi

  datatype Config = Config(warmupReqs: nat, maxReqs: nat, minSleepNs: nat)

  /** `inFlight` maps the id of a request to its generation time; `hasDist` is `dist != nullptr`. */
  datatype Shared = Shared(
    status: Status, hasDist: bool, lastArrival: nat, startedReqs: nat, inFlight: map<nat, nat>,
    queueTimes: seq<int>, svcTimes: seq<int>, sjrnTimes: seq<int>, finishedReqs: nat)

  const FRESH := Shared(Init, false, 0, 0, map[], [], [], [], 0)

  /** The first thread through sets up the arrival process and starts the warmup. */
  function SetUp(s: Shared, now: nat): Shared {
    if s.hasDist then s else s.(hasDist := true, lastArrival := now, status := Warmup)
  }

  /** A new request, generated `gap` after the one before. */
  function Issue(s: Shared, gap: nat): Shared {
    var gen := s.lastArrival + gap;
    s.(startedReqs := s.startedReqs + 1, lastArrival := gen, inFlight := s.inFlight[s.startedReqs := gen])
  }

  /** The assertions of `finiReq`, for a response that took svc, at time now. */
  predicate MayFinish(s: Shared, id: nat, svc: int, now: nat) {
    id in s.inFlight && (s.status.Roi? ==> now > s.inFlight[id] && now - s.inFlight[id] >= svc)
  }

  function Finish(s: Shared, id: nat, svc: int, now: nat): Shared
    requires MayFinish(s, id, svc, now)
  {
    var t := if !s.status.Roi? then s
             else
               var sjrn := now - s.inFlight[id];
               s.(queueTimes := s.queueTimes + [sjrn - svc], svcTimes := s.svcTimes + [svc], sjrnTimes := s.sjrnTimes + [sjrn]);
    t.(inFlight := t.inFlight - {id})
  }

  /** The second critical section of `sendResp`. */
  predicate StartsRoi(s: Shared, c: Config) { s.finishedReqs + 1 == c.warmupReqs }

  predicate Dumps(s: Shared, c: Config) { !StartsRoi(s, c) && s.finishedReqs + 1 == c.warmupReqs + c.maxReqs }

  /** The assertion of `_startRoi`. */
  predicate MayCount(s: Shared, c: Config) { StartsRoi(s, c) ==> s.status.Warmup? }

  function Counted(s: Shared, c: Config): Shared {
    var t := s.(finishedReqs := s.finishedReqs + 1);
    if StartsRoi(s, c) then t.(status := Roi, queueTimes := [], svcTimes := [], sjrnTimes := []) else t
  }
}
