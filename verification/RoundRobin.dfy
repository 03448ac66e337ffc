/**
 How the networked server picks the next request (`recvReq`,
 harness/tbench_server_networked.cpp), on values: the scan for a ready client
 from the head on, the head that moves on by one, the clients that leave.
 */
module RoundRobin {
  import opened Framing

  datatype Option<T> = None | Some(value: T)

  /** The first ready client at or after offset i from the head, as a position in the list. */
  function Scan(fds: seq<int>, head: nat, ready: set<int>, i: nat): (r: Option<nat>)
    ensures r.Some? ==> r.value < |fds| && fds[r.value] in ready
    decreases |fds| - i
  {
    if i >= |fds| then None
    else if fds[(head + i) % |fds|] in ready then Some((head + i) % |fds|)
    else Scan(fds, head, ready, i + 1)
  }

  function NextHead(head: nat, n: nat): nat
    requires n > 0
  {
    (head + 1) % n
  }

  /** The head before round k, with the list of clients fixed. */
  function HeadAt(head: nat, n: nat, k: nat): nat
    requires n > 0
  {
    if k == 0 then head else NextHead(HeadAt(head, n, k - 1), n)
  }

  lemma MultipleMod(q: nat, r: nat, n: nat)
    requires r < n
    ensures (q * n + r) % n == r
  {
    var x := q * n + r;
    var d := x / n;
    assert x == d * n + x % n;
    if d > q {
      MulMonotone(q + 1, d, n);
    } else if d < q {
      MulMonotone(d + 1, q, n);
    }
  }

  lemma ModStep(a: nat, n: nat)
    requires n > 0
    ensures (a % n + 1) % n == (a + 1) % n
  {
    var q, r := a / n, a % n;
    assert a == q * n + r;
    if r + 1 == n {
      assert a + 1 == (q + 1) * n + 0;
      MultipleMod(q + 1, 0, n);
      MultipleMod(1, 0, n);
    } else {
      MultipleMod(q, r + 1, n);
      MultipleMod(0, r + 1, n);
    }
  }

  /** Modulo the length, the head moves on by one per round, wherever it started. */
  lemma {:induction false} HeadAdvances(head: nat, n: nat, k: nat)
    requires n > 0
    ensures HeadAt(head, n, k) % n == (head + k) % n
  {
    if k > 0 {
      HeadAdvances(head, n, k - 1);
      var h := HeadAt(head, n, k - 1);
      ModStep(h, n);
      ModStep(head + k - 1, n);
      MultipleMod(0, (h + 1) % n, n);
    }
  }

  /** Every position is some number of steps below n from any head. */
  lemma OffsetOf(head: nat, n: nat, j: nat) returns (k: nat)
    requires j < n
    ensures k < n && (head + k) % n == j
  {
    var h := head % n;
    var q := head / n;
    assert head == q * n + h;
    if h <= j {
      k := j - h;
      MultipleMod(q, j, n);
    } else {
      k := j + n - h;
      assert head + k == (q + 1) * n + j;
      MultipleMod(q + 1, j, n);
    }
  }

  lemma {:induction false} ScanReaches(fds: seq<int>, head: nat, ready: set<int>, i: nat, k: nat)
    requires i <= k < |fds| && fds[(head + k) % |fds|] in ready
    ensures Scan(fds, head, ready, i).Some?
    decreases k - i
  {
    if i < k {
      ScanReaches(fds, head, ready, i + 1, k);
    }
  }

  /** The scan finds a client exactly when one is ready, also with the head beyond the end of the list. */
  lemma ScanFindsExactly(fds: seq<int>, head: nat, ready: set<int>)
    ensures Scan(fds, head, ready, 0).Some? <==> exists fd :: fd in fds && fd in ready
  {
    var found := Scan(fds, head, ready, 0);
    if found.Some? {
      var fd := fds[found.value];
      assert fd in fds && fd in ready;
    }
    if fd :| fd in fds && fd in ready {
      var j :| 0 <= j < |fds| && fds[j] == fd;
      var k := OffsetOf(head, |fds|, j);
      ScanReaches(fds, head, ready, 0, k);
    }
  }

  /** A client that is ready throughout is served within as many rounds as there are clients. */
  lemma BoundedFairness(fds: seq<int>, head: nat, readies: seq<set<int>>, j: nat)
    requires j < |fds| <= |readies|
    requires forall k :: 0 <= k < |fds| ==> fds[j] in readies[k]
    ensures exists k :: 0 <= k < |fds| && Scan(fds, HeadAt(head, |fds|, k), readies[k], 0) == Some(j)
  {
    var k := OffsetOf(head, |fds|, j);
    HeadAdvances(head, |fds|, k);
    var h := HeadAt(head, |fds|, k);
    assert (h + 0) % |fds| == j;
    assert Scan(fds, h, readies[k], 0) == Some(j);
  }

  // Receiving

  /** The clients, the head, and what each client sends that has not been read. */
  datatype Server = Server(fds: seq<int>, head: nat, input: map<int, seq<byte>>)

  datatype Outcome = Served(fd: int, req: Request) | AllLeft | Exited | NoneReady

  function Position(fds: seq<int>, fd: int): (r: nat)
    requires fd in fds
    ensures r < |fds| && fds[r] == fd
  {
    if fds[0] == fd then 0 else Position(fds[1..], fd) + 1
  }

  function Removed(fds: seq<int>, fd: int): (r: seq<int>)
    requires fd in fds
    ensures |r| == |fds| - 1
  {
    var p := Position(fds, fd);
    fds[..p] + fds[p + 1..]
  }

  ghost predicate Valid(s: Server) {
    && (forall fd | fd in s.fds :: fd in s.input)
    && forall i, j :: 0 <= i < j < |s.fds| ==> s.fds[i] != s.fds[j]
  }

  lemma RemovedElems(fds: seq<int>, fd: int)
    requires fd in fds && forall i, j :: 0 <= i < j < |fds| ==> fds[i] != fds[j]
    ensures forall x :: x in Removed(fds, fd) <==> x in fds && x != fd
    ensures forall i, j :: 0 <= i < j < |fds| - 1 ==> Removed(fds, fd)[i] != Removed(fds, fd)[j]
  {
    var p := Position(fds, fd);
    var r := Removed(fds, fd);
    forall i | 0 <= i < |r| ensures r[i] == if i < p then fds[i] else fds[i + 1] {}
    forall x | x in fds && x != fd ensures x in r {
      var k :| 0 <= k < |fds| && fds[k] == x;
      assert x == if k < p then r[k] else r[k - 1];
    }
  }

  /** One round of `recvReq`: which clients `select` finds ready, and what the receives are granted. */
  datatype Round = Round(ready: set<int>, header: seq<int>, payload: seq<int>)

  /** `recvReq`, given its rounds. */
  ghost function Receive(s: Server, rounds: seq<Round>): (r: (Outcome, Server))
    requires Valid(s) && |rounds| >= |s.fds|
    ensures Valid(r.1) && |r.1.fds| <= |s.fds|
    decreases |s.fds|
  {
    if |s.fds| == 0 then (AllLeft, s)
    else
      match Scan(s.fds, s.head, rounds[0].ready, 0)
      case None => (NoneReady, s.(head := NextHead(s.head, |s.fds|)))
      case Some(j) =>
        var fd := s.fds[j];
        var t := s.(head := NextHead(s.head, |s.fds|));
        match Read(s.input[fd], rounds[0].header, rounds[0].payload)
        case Got(req, rest) => (Served(fd, req), t.(input := t.input[fd := rest]))
        case Left(rest) =>
          RemovedElems(s.fds, fd);
          Receive(t.(fds := Removed(s.fds, fd), input := t.input[fd := rest]), rounds[1..])
        case Died => (Exited, t)
  }

  /** What one call delivers of a client's requests. */
  function Delivered(o: Outcome, fd: int): seq<Request> {
    if o.Served? && o.fd == fd then [o.req] else []
  }

  /** The requests of a client that are still to come. */
  function Pending(s: Server, fd: int): seq<Request> {
    if fd in s.fds && fd in s.input then Received(s.input[fd]) else []
  }

  /** No client has more than `bound` bytes to come. */
  ghost predicate Short(s: Server, bound: nat) { forall fd | fd in s.input :: |s.input[fd]| <= bound }

  /** The receives of these rounds meet no error within `bound` bytes. */
  ghost predicate Ample(rounds: seq<Round>, bound: nat) {
    forall k :: 0 <= k < |rounds| ==> Plenty(rounds[k].header, bound) && Plenty(rounds[k].payload, bound)
  }

  ghost predicate Clean(s: Server, rounds: seq<Round>, bound: nat) { Short(s, bound) && Ample(rounds, bound) }

  /** The server after a client has been taken for gone. */
  ghost function Without(s: Server, fd: int, rest: seq<byte>): (t: Server)
    requires Valid(s) && fd in s.fds
    ensures Valid(t) && |t.fds| == |s.fds| - 1
  {
    RemovedElems(s.fds, fd);
    Server(Removed(s.fds, fd), NextHead(s.head, |s.fds|), s.input[fd := rest])
  }

  /** One round: either the call ends, or it goes on with one client less. */
  lemma OneRound(s: Server, rounds: seq<Round>)
    requires Valid(s) && 0 < |s.fds| <= |rounds|
    ensures var t := s.(head := NextHead(s.head, |s.fds|));
            match Scan(s.fds, s.head, rounds[0].ready, 0)
            case None => Receive(s, rounds) == (NoneReady, t)
            case Some(j) =>
              var fd := s.fds[j];
              match Read(s.input[fd], rounds[0].header, rounds[0].payload)
              case Got(req, rest) => Receive(s, rounds) == (Served(fd, req), t.(input := t.input[fd := rest]))
              case Left(rest) => Receive(s, rounds) == Receive(Without(s, fd, rest), rounds[1..])
              case Died => Receive(s, rounds) == (Exited, t)
  {
    hide Scan, Read;
  }

  /** A call that reads a request of a client leaves the rest of it to come. */
  lemma GotFirst(s: seq<byte>, header: seq<int>, payload: seq<int>)
    ensures var r := Read(s, header, payload);
            && (r.Got? ==> Received(s) == [r.req] + Received(r.rest))
            && (r.Left? && Plenty(header, |s|) && Plenty(payload, |s|) ==> Received(s) == [])
            && (r.Got? || r.Left? ==> |r.rest| <= |s|)
  {
    ReadExactly(s, header, payload);
    if Plenty(header, |s|) && Plenty(payload, |s|) {
      ReadIsParse(s, header, payload);
    }
  }

  lemma PlentyLess(gs: seq<int>, n: nat, m: nat)
    requires n <= m && Plenty(gs, m)
    ensures Plenty(gs, n)
  {}

  /** What a call leaves of a client's requests; nothing is missing if the client stays or no receive met an error. */
  ghost predicate Sound(s: Server, o: Outcome, t: Server, fd: int, clean: bool) {
    && (fd in t.fds ==> fd in s.fds)
    && Delivered(o, fd) + Pending(t, fd) <= Pending(s, fd)
    && (fd in t.fds || clean ==> Pending(s, fd) == Delivered(o, fd) + Pending(t, fd))
  }

  lemma ServedSound(s: Server, d: int, req: Request, rest: seq<byte>, head: nat, fd: int, clean: bool)
    requires Valid(s) && d in s.fds && Received(s.input[d]) == [req] + Received(rest)
    ensures Sound(s, Served(d, req), Server(s.fds, head, s.input[d := rest]), fd, clean)
  {
    hide Received;
  }

  lemma LeftSound(s: Server, d: int, rest: seq<byte>, o: Outcome, t: Server, fd: int, clean: bool)
    requires Valid(s) && d in s.fds && Sound(Without(s, d, rest), o, t, fd, clean)
    requires clean ==> Received(s.input[d]) == []
    ensures Sound(s, o, t, fd, clean)
  {
    hide Received;
    RemovedElems(s.fds, d);
  }

  lemma CleanLess(s: Server, rounds: seq<Round>, bound: nat, d: int, rest: seq<byte>)
    requires Valid(s) && d in s.fds && |rounds| > 0 && Clean(s, rounds, bound) && |rest| <= |s.input[d]|
    ensures Clean(Without(s, d, rest), rounds[1..], bound)
    ensures Plenty(rounds[0].header, |s.input[d]|) && Plenty(rounds[0].payload, |s.input[d]|)
  {
    PlentyLess(rounds[0].header, |s.input[d]|, bound);
    PlentyLess(rounds[0].payload, |s.input[d]|, bound);
  }

  /**
   No call repeats or reorders a request of any client, and none loses one of a
   client that stays. A client that is taken for gone had nothing to come, unless
   a receive met an error.
   */
  lemma {:induction false} NothingLost(s: Server, rounds: seq<Round>, fd: int, bound: nat)
    requires Valid(s) && |rounds| >= |s.fds|
    ensures var (o, t) := Receive(s, rounds);
            Sound(s, o, t, fd, Clean(s, rounds, bound))
    decreases |s.fds|
  {
    if |s.fds| > 0 {
      OneRound(s, rounds);
      match Scan(s.fds, s.head, rounds[0].ready, 0) {
        case None =>
        case Some(j) =>
          var d := s.fds[j];
          GotFirst(s.input[d], rounds[0].header, rounds[0].payload);
          hide Receive, Received, Clean, Plenty;
          match Read(s.input[d], rounds[0].header, rounds[0].payload) {
            case Got(req, rest) =>
              ServedSound(s, d, req, rest, NextHead(s.head, |s.fds|), fd, Clean(s, rounds, bound));
            case Left(rest) =>
              var t := Without(s, d, rest);
              NothingLost(t, rounds[1..], fd, bound);
              if Clean(s, rounds, bound) {
                CleanLess(s, rounds, bound, d, rest);
              }
              LeftSound(s, d, rest, Receive(s, rounds).0, Receive(s, rounds).1, fd, Clean(s, rounds, bound));
            case Died =>
          }
      }
    }
  }

  lemma {:induction false} InputsShrink(s: Server, rounds: seq<Round>, bound: nat)
    requires Valid(s) && |rounds| >= |s.fds| && Short(s, bound)
    ensures Short(Receive(s, rounds).1, bound)
    decreases |s.fds|
  {
    if |s.fds| > 0 {
      OneRound(s, rounds);
      match Scan(s.fds, s.head, rounds[0].ready, 0) {
        case None =>
        case Some(j) =>
          GotFirst(s.input[s.fds[j]], rounds[0].header, rounds[0].payload);
          hide Receive, Received;
          match Read(s.input[s.fds[j]], rounds[0].header, rounds[0].payload) {
            case Left(rest) => InputsShrink(Without(s, s.fds[j], rest), rounds[1..], bound);
            case _ =>
          }
      }
    }
  }

  // Serving until the server stops

  datatype Delivery = Delivery(fd: int, req: Request)

  /** A server after some calls of `recvReq`: what they handed out, whether the process has ended, and whether before all clients left. */
  datatype History = History(server: Server, log: seq<Delivery>, ended: bool, crashed: bool)

  /** One more call; one with too few rounds given changes nothing. */
  ghost function Called(h: History, rounds: seq<Round>): (r: History)
    requires Valid(h.server)
    ensures Valid(r.server)
  {
    if h.ended || |rounds| < |h.server.fds| then h
    else
      var (o, t) := Receive(h.server, rounds);
      if o.Served? then h.(server := t, log := h.log + [Delivery(o.fd, o.req)])
      else History(t, h.log, true, !o.AllLeft?)
  }

  ghost function Serve(s: Server, calls: seq<seq<Round>>): (r: History)
    requires Valid(s)
    ensures Valid(r.server)
  {
    if |calls| == 0 then History(s, [], false, false) else Called(Serve(s, calls[..|calls| - 1]), calls[|calls| - 1])
  }

  /** The requests of one client in a log. */
  function From(log: seq<Delivery>, fd: int): seq<Request> {
    if |log| == 0 then []
    else From(log[..|log| - 1], fd) + if log[|log| - 1].fd == fd then [log[|log| - 1].req] else []
  }

  /** No receive of any call meets an error. */
  ghost predicate AllAmple(calls: seq<seq<Round>>, bound: nat) {
    forall c | c in calls :: Ample(c, bound)
  }

  /** Handed out so far and still to come make up `all`, or with an error a part of it from the start. */
  ghost predicate Complete(h: History, fd: int, all: seq<Request>, clean: bool) {
    && From(h.log, fd) + Pending(h.server, fd) <= all
    && (fd in h.server.fds || clean ==> all == From(h.log, fd) + Pending(h.server, fd))
  }

  lemma FromPush(log: seq<Delivery>, d: Delivery, fd: int)
    ensures From(log + [d], fd) == From(log, fd) + if d.fd == fd then [d.req] else []
  {
    assert (log + [d])[..|log|] == log;
  }

  /** A part handed out later continues what was handed out before. */
  lemma CompleteOn(h: History, t: Server, o: Outcome, log: seq<Delivery>, fd: int, all: seq<Request>, clean: bool)
    requires Complete(h, fd, all, clean) && Sound(h.server, o, t, fd, clean)
    requires From(log, fd) == From(h.log, fd) + Delivered(o, fd)
    ensures Complete(History(t, log, h.ended, h.crashed), fd, all, clean)
  {
    hide From, Pending, Delivered;
    var a, d, p, q := From(h.log, fd), Delivered(o, fd), Pending(h.server, fd), Pending(t, fd);
    assert (a + d) + q == a + (d + q);
    assert d + q == p[..|d + q|];
    assert a + (d + q) == (a + p)[..|a| + |d + q|];
  }

  lemma CallKeeps(h: History, rounds: seq<Round>, fd: int, all: seq<Request>, bound: nat, clean: bool)
    requires Valid(h.server) && Complete(h, fd, all, clean) && (clean ==> Clean(h.server, rounds, bound))
    ensures Complete(Called(h, rounds), fd, all, clean)
    ensures clean ==> Short(Called(h, rounds).server, bound)
  {
    hide Receive, Pending, From, Complete, Ample;
    if !h.ended && |rounds| >= |h.server.fds| {
      NothingLost(h.server, rounds, fd, bound);
      var (o, t) := Receive(h.server, rounds);
      SoundLess(h.server, o, t, fd, Clean(h.server, rounds, bound), clean);
      if o.Served? {
        FromPush(h.log, Delivery(o.fd, o.req), fd);
        CompleteOn(h, t, o, h.log + [Delivery(o.fd, o.req)], fd, all, clean);
        CompleteFrame(History(t, h.log + [Delivery(o.fd, o.req)], h.ended, h.crashed), Called(h, rounds), fd, all, clean);
      } else {
        CompleteOn(h, t, o, h.log, fd, all, clean);
        CompleteFrame(History(t, h.log, h.ended, h.crashed), Called(h, rounds), fd, all, clean);
      }
      if clean {
        InputsShrink(h.server, rounds, bound);
      }
    }
  }

  lemma SoundLess(s: Server, o: Outcome, t: Server, fd: int, clean: bool, less: bool)
    requires Sound(s, o, t, fd, clean) && (less ==> clean)
    ensures Sound(s, o, t, fd, less)
  {}

  lemma CompleteFrame(h: History, g: History, fd: int, all: seq<Request>, clean: bool)
    requires Complete(h, fd, all, clean) && g.server == h.server && g.log == h.log
    ensures Complete(g, fd, all, clean)
  {}

  /**
   Over any number of calls, what has been handed out of a client's requests and
   what is still to come make up what the client sent, in order, as long as the
   client stays, and for good if no receive meets an error. With an error it is a
   part of it from the start.
   */
  lemma {:induction false} EachClientInOrder(s: Server, calls: seq<seq<Round>>, fd: int, bound: nat)
    requires Valid(s) && Short(s, bound)
    ensures Complete(Serve(s, calls), fd, Pending(s, fd), AllAmple(calls, bound))
    ensures AllAmple(calls, bound) ==> Short(Serve(s, calls).server, bound)
  {
    if |calls| > 0 {
      var before, c := calls[..|calls| - 1], calls[|calls| - 1];
      hide Called, Pending, From;
      EachClientInOrder(s, before, fd, bound);
      assert c in calls && forall d | d in before :: d in calls;
      CallKeeps(Serve(s, before), c, fd, Pending(s, fd), bound, AllAmple(calls, bound));
    }
  }

  /** Once all clients have left, each has had exactly the requests that it sent, if all had a payload. */
  lemma AllServed(s: Server, calls: seq<seq<Round>>, fd: int, rs: seq<Request>, bound: nat)
    requires Valid(s) && Short(s, bound) && fd in s.fds && s.input[fd] == Session(rs) && FitsBuffer(rs)
    requires forall r | r in rs :: r.data != []
    ensures var h := Serve(s, calls);
            From(h.log, fd) <= rs && (AllAmple(calls, bound) && h.server.fds == [] ==> From(h.log, fd) == rs)
  {
    EachClientInOrder(s, calls, fd, bound);
    SessionRoundTripExactly(rs);
    hide Serve, From, Received;
    var h := Serve(s, calls);
    assert From(h.log, fd) <= From(h.log, fd) + Pending(h.server, fd);
  }

  // Fairness of the calls

  /** A call that hands out a request and loses no client took one round: the scan from the head. */
  lemma ServedByScan(s: Server, rounds: seq<Round>)
    requires Valid(s) && |rounds| >= |s.fds|
    requires Receive(s, rounds).0.Served? && |Receive(s, rounds).1.fds| == |s.fds|
    ensures var (o, t) := Receive(s, rounds);
            var found := Scan(s.fds, s.head, rounds[0].ready, 0);
            |s.fds| > 0 && t.fds == s.fds && t.head == NextHead(s.head, |s.fds|)
            && found.Some? && found.value < |s.fds| && o.fd == s.fds[found.value]
  {
    OneRound(s, rounds);
    hide Read, Scan;
  }

  lemma CalledLog(h: History, rounds: seq<Round>)
    requires Valid(h.server)
    ensures var g := Called(h, rounds);
            && |g.server.fds| <= |h.server.fds| && (h.ended ==> g.ended)
            && (!g.ended && |rounds| >= |h.server.fds| ==>
                  var (o, t) := Receive(h.server, rounds);
                  o.Served? && g.server == t && g.log == h.log + [Delivery(o.fd, o.req)])
  {
    hide Receive;
  }

  lemma {:induction false} ClientsOnlyLeave(s: Server, calls: seq<seq<Round>>)
    requires Valid(s)
    ensures |Serve(s, calls).server.fds| <= |s.fds|
  {
    hide Called;
    if |calls| > 0 {
      ClientsOnlyLeave(s, calls[..|calls| - 1]);
      CalledLog(Serve(s, calls[..|calls| - 1]), calls[|calls| - 1]);
    }
  }

  /** The client that call k serves while nobody leaves. */
  function Turn(s: Server, calls: seq<seq<Round>>, k: nat): Option<nat>
    requires |s.fds| > 0 && k < |calls| && |calls[k]| > 0
  {
    Scan(s.fds, HeadAt(s.head, |s.fds|, k), calls[k][0].ready, 0)
  }

  /** Every delivery of the log is to the client whose turn it was. */
  ghost predicate InTurn(s: Server, calls: seq<seq<Round>>, log: seq<Delivery>) {
    && |s.fds| > 0 && |log| == |calls|
    && forall k :: 0 <= k < |calls| ==>
         |calls[k]| > 0 && Turn(s, calls, k).Some? && Turn(s, calls, k).value < |s.fds| && log[k].fd == s.fds[Turn(s, calls, k).value]
  }

  lemma InTurnPush(s: Server, calls: seq<seq<Round>>, log: seq<Delivery>, d: Delivery)
    requires |calls| > 0 && InTurn(s, calls[..|calls| - 1], log) && |calls[|calls| - 1]| > 0
    requires Turn(s, calls, |calls| - 1).Some? && Turn(s, calls, |calls| - 1).value < |s.fds|
    requires d.fd == s.fds[Turn(s, calls, |calls| - 1).value]
    ensures InTurn(s, calls, log + [d])
  {
    hide Scan, HeadAt;
    var before := calls[..|calls| - 1];
    forall k | 0 <= k < |calls| - 1 ensures before[k] == calls[k] && Turn(s, calls, k) == Turn(s, before, k) {}
  }

  lemma {:induction false} TurnsTaken(s: Server, calls: seq<seq<Round>>)
    requires Valid(s) && |s.fds| > 0 && forall k :: 0 <= k < |calls| ==> |calls[k]| >= |s.fds|
    requires !Serve(s, calls).ended && |Serve(s, calls).server.fds| == |s.fds|
    ensures var h := Serve(s, calls);
            h.server.fds == s.fds && h.server.head == HeadAt(s.head, |s.fds|, |calls|) && InTurn(s, calls, h.log)
  {
    if |calls| > 0 {
      var n := |calls| - 1;
      var before, g := calls[..n], Serve(s, calls[..n]);
      hide Called, Scan, InTurn;
      CalledLog(g, calls[n]);
      ClientsOnlyLeave(s, before);
      TurnsTaken(s, before);
      ServedByScan(g.server, calls[n]);
      hide Receive;
      var (o, t) := Receive(g.server, calls[n]);
      InTurnPush(s, calls, g.log, Delivery(o.fd, o.req));
    }
  }

  /** While no client leaves, one that every `select` finds ready is handed out within as many calls as there are clients. */
  lemma ServedWithinRound(s: Server, calls: seq<seq<Round>>, j: nat)
    requires Valid(s) && j < |s.fds| == |calls| && forall k :: 0 <= k < |calls| ==> |calls[k]| >= |s.fds|
    requires forall k :: 0 <= k < |calls| ==> s.fds[j] in calls[k][0].ready
    ensures var h := Serve(s, calls);
            !h.ended && |h.server.fds| == |s.fds| ==> exists d :: d in h.log && d.fd == s.fds[j]
  {
    var h := Serve(s, calls);
    if !h.ended && |h.server.fds| == |s.fds| {
      TurnsTaken(s, calls);
      hide Serve, Scan;
      var readies := seq(|calls|, k requires 0 <= k < |calls| => calls[k][0].ready);
      BoundedFairness(s.fds, s.head, readies, j);
      var k :| 0 <= k < |s.fds| && Scan(s.fds, HeadAt(s.head, |s.fds|, k), readies[k], 0) == Some(j);
      assert Turn(s, calls, k) == Some(j);
      assert h.log[k] in h.log;
    }
  }

  // Sessions do not crash the server

  ghost predicate IsSession(s: seq<byte>) {
    exists rs: seq<Request> :: FitsBuffer(rs) && (forall r | r in rs :: r.data != []) && s == Session(rs)
  }

  lemma SessionStep(s: seq<byte>)
    requires IsSession(s)
    ensures match Parse(s)
            case Got(_, rest) => IsSession(rest)
            case Left(rest) => true
            case Died => false
  {
    var rs: seq<Request> :| FitsBuffer(rs) && (forall r | r in rs :: r.data != []) && s == Session(rs);
    if |rs| > 0 {
      assert rs[0] in rs;
      RoundTripExactly(rs[0], Session(rs[1..]));
      assert forall r | r in rs[1..] :: r in rs;
    }
  }

  ghost predicate Sessions(s: Server)
    requires Valid(s)
  {
    forall fd | fd in s.fds :: IsSession(s.input[fd])
  }

  /** Every `select` of a call finds one of the clients it was given ready. */
  ghost predicate Selects(s: Server, rounds: seq<Round>)
    requires Valid(s) && |rounds| >= |s.fds|
    decreases |s.fds|
  {
    |s.fds| > 0 ==>
      match Scan(s.fds, s.head, rounds[0].ready, 0)
      case None => false
      case Some(j) =>
        var fd := s.fds[j];
        match Read(s.input[fd], rounds[0].header, rounds[0].payload)
        case Left(rest) => Selects(Without(s, fd, rest), rounds[1..])
        case _ => true
  }

  ghost predicate AllSelect(s: Server, calls: seq<seq<Round>>)
    requires Valid(s)
  {
    |calls| == 0 ||
    var h, c := Serve(s, calls[..|calls| - 1]), calls[|calls| - 1];
    AllSelect(s, calls[..|calls| - 1]) && (!h.ended && |c| >= |h.server.fds| ==> Selects(h.server, c))
  }

  lemma {:induction false} SessionsKept(s: Server, rounds: seq<Round>, bound: nat)
    requires Valid(s) && |rounds| >= |s.fds| && Sessions(s) && Clean(s, rounds, bound) && Selects(s, rounds)
    ensures var (o, t) := Receive(s, rounds); (o.Served? || o.AllLeft?) && Sessions(t) && (o.AllLeft? ==> t.fds == [])
    decreases |s.fds|
  {
    if |s.fds| > 0 {
      OneRound(s, rounds);
      var j := Scan(s.fds, s.head, rounds[0].ready, 0).value;
      var d := s.fds[j];
      assert d in s.fds;
      CleanLess(s, rounds, bound, d, s.input[d]);
      ReadIsParse(s.input[d], rounds[0].header, rounds[0].payload);
      GotFirst(s.input[d], rounds[0].header, rounds[0].payload);
      SessionStep(s.input[d]);
      hide Receive, Read, Parse, Clean, IsSession, Scan;
      match Read(s.input[d], rounds[0].header, rounds[0].payload) {
        case Left(rest) =>
          CleanLess(s, rounds, bound, d, rest);
          RemovedElems(s.fds, d);
          SessionsKept(Without(s, d, rest), rounds[1..], bound);
        case _ =>
      }
    }
  }

  /**
   If every client sends whole requests with payloads, no receive meets an error,
   and every `select` finds a client ready, the server ends only when all clients
   have left.
   */
  lemma {:induction false} SessionsNeverCrash(s: Server, calls: seq<seq<Round>>, bound: nat)
    requires Valid(s) && Sessions(s) && Short(s, bound) && AllAmple(calls, bound) && AllSelect(s, calls)
    ensures var h := Serve(s, calls);
            !h.crashed && (h.ended ==> h.server.fds == []) && Sessions(h.server) && Short(h.server, bound)
  {
    if |calls| > 0 {
      var h, c := Serve(s, calls[..|calls| - 1]), calls[|calls| - 1];
      assert c in calls && forall d | d in calls[..|calls| - 1] :: d in calls;
      SessionsNeverCrash(s, calls[..|calls| - 1], bound);
      hide Receive, Sessions, Ample, Short, Selects;
      if !h.ended && |c| >= |h.server.fds| {
        SessionsKept(h.server, c, bound);
        InputsShrink(h.server, c, bound);
      }
    }
  }
}
