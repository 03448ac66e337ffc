/**
 Partial sends and receives (`sendfull`, `recvfull`, harness/helpers.h) and the
 client's side of the protocol (`NetworkedClient`, harness/client.cpp). How much
 a system call moves, and whether it fails, is an input.
 */
module Sockets {
  import opened Framing

  /** Sends msg on a connection on which `sent` has been sent before; an error ends it early. */
  method SendFull(sent: seq<byte>, msg: seq<byte>, gs: seq<int>) returns (after: seq<byte>, n: nat)
    ensures n == Arrived(|msg|, |msg|, gs) && after == sent + msg[..n]
  {
    after := sent;
    var remaining := |msg|;
    var call := 0;
    while remaining > 0
      invariant 0 <= remaining <= |msg| && call <= |gs|
      invariant after == sent + msg[..|msg| - remaining]
      invariant |msg| - remaining + Arrived(remaining, remaining, gs[call..]) == Arrived(|msg|, |msg|, gs)
    {
      if call == |gs| || gs[call] < 1 {
        break;
      }
      var cur := |msg| - remaining;
      var moved := Min(gs[call], remaining);
      assert gs[call..][1..] == gs[call + 1..];
      assert msg[..cur + moved] == msg[..cur] + msg[cur..cur + moved];
      after := after + msg[cur..cur + moved];
      remaining := remaining - moved;
      call := call + 1;
    }
    n := |msg| - remaining;
  }

  /** Reads from what the peer sends; `rest` is what remains unread. The end and an error end it early. */
  method RecvFull(input: seq<byte>, len: nat, gs: seq<int>) returns (msg: seq<byte>, rest: seq<byte>)
    ensures msg == Part(input, len, gs) && rest == input[|msg|..]
  {
    msg, rest := [], input;
    var remaining := len;
    var call := 0;
    while remaining > 0
      invariant 0 <= remaining <= len && |msg| == len - remaining && call <= |gs|
      invariant |msg| <= |input| && msg == input[..|msg|] && rest == input[|msg|..]
      invariant |msg| + Arrived(|rest|, remaining, gs[call..]) == Arrived(|input|, len, gs)
    {
      if rest == [] || call == |gs| || gs[call] < 1 {
        break;
      }
      var moved := Min(Min(gs[call], remaining), |rest|);
      assert gs[call..][1..] == gs[call + 1..];
      msg := msg + rest[..moved];
      rest := rest[moved..];
      remaining := remaining - moved;
      call := call + 1;
    }
  }

  class NetworkedClient {
    /** What has been sent to the server, and what the server sends that has not been read yet. */
    var sent: seq<byte>
    var input: seq<byte>
    var recvLocked: bool

    constructor (input: seq<byte>)
      ensures sent == [] && this.input == input && !recvLocked
    {
      sent, this.input, recvLocked := [], input, false;
    }

    /** All of the encoded request is sent, or the part of it before an error. */
    method Send(req: Request, gs: seq<int>) returns (ok: bool)
      modifies `sent
      ensures var n := Arrived(|Encoded(req)|, |Encoded(req)|, gs);
              sent == old(sent) + Encoded(req)[..n] && (ok <==> n == |Encoded(req)|)
      ensures ok ==> sent == old(sent) + Encoded(req)
      ensures Plenty(gs, |Encoded(req)|) ==> ok
    {
      var msg := Encoded(req);
      var n: nat;
      sent, n := SendFull(sent, msg, gs);
      ok := n == |msg|;
      assert msg[..|msg|] == msg;
      if Plenty(gs, |msg|) {
        PlentyMovesAll(|msg|, |msg|, gs);
      }
    }

    /** A failed receive returns with the lock still held. */
    method Recv(header: seq<int>, payload: seq<int>) returns (ok: bool, resp: Response)
      requires !recvLocked
      modifies `recvLocked, `input
      ensures ok == ReadResponse(old(input), header, payload).Answer? && recvLocked == !ok
      ensures ok ==> ReadResponse(old(input), header, payload) == Answer(resp, input)
    {
      recvLocked := true;
      resp := Response(RESPONSE, 0, 0, 0, []);
      var h: seq<byte>;
      h, input := RecvFull(input, RESP_HEADER_BYTES, header);
      if |h| != RESP_HEADER_BYTES {
        return false, resp;
      }
      var len := WordOf(h[24..32]);
      resp := Response(WordOf(h[..8]), WordOf(h[8..16]), WordOf(h[16..24]), len, []);
      if resp.kind == RESPONSE {
        var data: seq<byte>;
        data, input := RecvFull(input, len, payload);
        if |data| != len {
          return false, resp;
        }
        resp := resp.(data := data);
      }
      recvLocked := false;
      return true, resp;
    }
  }
}
