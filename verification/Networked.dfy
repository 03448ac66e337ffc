/**
 The networked server's object (harness/tbench_server_networked.cpp): its client
 list and receive loop, proved against the functions of `RoundRobin`. Where the
 source ends the process, the method returns with an outcome that says so.
 */
module Networked {
  import opened Framing
  import opened Sockets
  import opened RoundRobin

  datatype ReqInfo = ReqInfo(id: int, startNs: int)

  /** What `checkRecv` makes of a byte count. */
  datatype Check = Success | Gone | Exit

  class NetworkedServer {
    var clientFds: seq<int>
    var recvClientHead: nat

    /** What each client sends and the server has not read yet. */
    var input: map<int, seq<byte>>

    const reqInfo: array<ReqInfo>
    const activeFds: array<int>

    ghost function View(): Server
      reads this
    {
      Server(clientFds, recvClientHead, input)
    }

    constructor (nthreads: nat, clientFds: seq<int>, input: map<int, seq<byte>>)
      ensures View() == Server(clientFds, 0, input)
      ensures fresh(reqInfo) && fresh(activeFds) && reqInfo.Length == activeFds.Length == nthreads
    {
      this.clientFds, recvClientHead, this.input := clientFds, 0, input;
      reqInfo := new ReqInfo[nthreads](_ => ReqInfo(0, 0));
      activeFds := new int[nthreads](_ => 0);
    }

    method RemoveClient(fd: int)
      requires fd in clientFds
      modifies `clientFds
      ensures clientFds == Removed(old(clientFds), fd)
    {
      var it := 0;
      while clientFds[it] != fd
        invariant clientFds == old(clientFds) && 0 <= it < |clientFds| && it <= Position(clientFds, fd)
        decreases |clientFds| - it
      {
        FirstAt(clientFds, fd, it);
        it := it + 1;
      }
      FirstAt(clientFds, fd, it);
      clientFds := clientFds[..it] + clientFds[it + 1..];
    }

    /** Nothing received: the client has gone. The byte count is never -1, so an error before any byte counts as that, too. */
    method CheckRecv(recvd: nat, expected: nat, fd: int) returns (r: Check)
      requires fd in clientFds
      modifies `clientFds
      ensures r == if recvd == 0 then Gone else if recvd != expected then Exit else Success
      ensures clientFds == if r.Gone? then Removed(old(clientFds), fd) else old(clientFds)
    {
      if recvd == 0 {
        RemoveClient(fd);
        return Gone;
      }
      return if recvd != expected then Exit else Success;
    }

    /** The scan after `select`. */
    method FindReady(ready: set<int>) returns (found: Option<nat>)
      ensures found == Scan(clientFds, recvClientHead, ready, 0)
    {
      for i := 0 to |clientFds|
        invariant Scan(clientFds, recvClientHead, ready, 0) == Scan(clientFds, recvClientHead, ready, i)
      {
        var idx := (recvClientHead + i) % |clientFds|;
        if clientFds[idx] in ready {
          return Some(idx);
        }
      }
      return None;
    }

    /** Header and payload of one request, each in as many pieces as the system calls make of it, errors included. */
    method ReadRequest(fd: int, header: seq<int>, payload: seq<int>) returns (r: Check, req: Request)
      requires fd in clientFds && fd in input
      modifies `clientFds, `input
      ensures match Read(old(input[fd]), header, payload)
              case Got(q, rest) => r.Success? && req == q && clientFds == old(clientFds) && input == old(input)[fd := rest]
              case Left(rest) => r.Gone? && clientFds == Removed(old(clientFds), fd) && input == old(input)[fd := rest]
              case Died => r.Exit?
    {
      hide Removed, Position, WordOf, Arrived;
      req := Request(0, 0, []);
      var h, rest := RecvFull(input[fd], HEADER_BYTES, header);
      input := input[fd := rest];
      r := CheckRecv(|h|, HEADER_BYTES, fd);
      if !r.Success? {
        return;
      }
      var len := WordOf(h[16..24]);
      var data, rest' := RecvFull(rest, len, payload);
      input := input[fd := rest'];
      r := CheckRecv(|data|, len, fd);
      req := Request(WordOf(h[..8]), WordOf(h[8..16]), data);
    }

    /** One call, in rounds. */
    method RecvReq(thread: nat, now: int, rounds: seq<Round>) returns (o: Outcome)
      requires Valid(View()) && |rounds| >= |clientFds|
      requires thread < reqInfo.Length == activeFds.Length
      modifies this, reqInfo, activeFds
      ensures o == Receive(old(View()), rounds).0
      ensures !o.Exited? ==> View() == Receive(old(View()), rounds).1
      ensures o.Served? ==> reqInfo[..] == old(reqInfo[..])[thread := ReqInfo(o.req.id, now)]
      ensures o.Served? ==> activeFds[..] == old(activeFds[..])[thread := o.fd]
    {
      var k := 0;
      while |clientFds| > 0
        invariant Valid(View()) && k + |clientFds| <= |rounds|
        invariant Receive(old(View()), rounds) == Receive(View(), rounds[k..])
        invariant reqInfo[..] == old(reqInfo[..]) && activeFds[..] == old(activeFds[..])
        decreases |clientFds|
      {
        hide Receive, Read, Scan, Removed;
        OneRound(View(), rounds[k..]);
        var found := FindReady(rounds[k].ready);
        if found.None? {
          recvClientHead := NextHead(recvClientHead, |clientFds|);
          return NoneReady;
        }
        var fd := clientFds[found.value];
        ghost var before := View();
        recvClientHead := NextHead(recvClientHead, |clientFds|);
        var check, req := ReadRequest(fd, rounds[k].header, rounds[k].payload);
        match check {
          case Success =>
            reqInfo[thread] := ReqInfo(req.id, now);
            activeFds[thread] := fd;
            return Served(fd, req);
          case Exit => return Exited;
          case Gone =>
            assert View() == Without(before, fd, input[fd]);
        }
        assert rounds[k..][1..] == rounds[k + 1..];
        k := k + 1;
      }
      return AllLeft;
    }
  }

  lemma {:induction false} FirstAt(fds: seq<int>, fd: int, i: nat)
    requires fd in fds && i < |fds| && i <= Position(fds, fd)
    ensures fds[i] == fd <==> i == Position(fds, fd)
  {
    if i > 0 {
      FirstAt(fds[1..], fd, i - 1);
    }
  }
}
