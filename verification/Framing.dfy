/**
 The byte streams between the load generator's client and server
 (harness/msgs.h, harness/client.cpp, harness/tbench_server_networked.cpp): a
 request is a header of three 64-bit little-endian words and the payload. A
 stream is everything the peer sends before it closes the connection.
 */
module Framing {

  type byte = b: int | 0 <= b < 256

  type Word = w: nat | w < 0x1_0000_0000_0000_0000

  const WORD_BYTES := 8
  const HEADER_BYTES := 24
  const MAX_REQ_BYTES := 0x10_0000

  datatype Request = Request(id: Word, genNs: Word, data: seq<byte>)

  function Pow256(k: nat): (p: nat)
    ensures p > 0
  {
    if k == 0 then 1 else 256 * Pow256(k - 1)
  }

  /** The k low bytes of n, the lowest first. */
  function Bytes(n: nat, k: nat): (s: seq<byte>)
    ensures |s| == k
  {
    if k == 0 then [] else [n % 256] + Bytes(n / 256, k - 1)
  }

  function Value(s: seq<byte>): nat {
    if |s| == 0 then 0 else s[0] + 256 * Value(s[1..])
  }

  lemma {:induction false} ValueOfBytes(n: nat, k: nat)
    requires n < Pow256(k)
    ensures Value(Bytes(n, k)) == n
  {
    if k > 0 {
      ValueOfBytes(n / 256, k - 1);
    }
  }

  lemma {:induction false} ValueBound(s: seq<byte>)
    ensures Value(s) < Pow256(|s|)
  {
    if |s| > 0 {
      ValueBound(s[1..]);
    }
  }

  lemma Pow256Of8()
    ensures Pow256(8) == 0x1_0000_0000_0000_0000
  {
    assert Pow256(4) == 0x1_0000_0000;
  }

  function WordOf(s: seq<byte>): Word
    requires |s| == WORD_BYTES
  {
    ValueBound(s);
    Pow256Of8();
    Value(s)
  }

  lemma WordOfBytes(w: Word)
    ensures WordOf(Bytes(w, 8)) == w
  {
    Pow256Of8();
    ValueOfBytes(w, 8);
  }

  // Requests

  function Header(r: Request, len: nat): seq<byte> {
    Bytes(r.id, WORD_BYTES) + Bytes(r.genNs, WORD_BYTES) + Bytes(len, WORD_BYTES)
  }

  /** What `NetworkedClient::send` puts on the wire. */
  function Encoded(r: Request): seq<byte> {
    Header(r, |r.data|) + r.data
  }

  lemma MulMonotone(a: nat, b: nat, n: nat)
    requires a <= b
    ensures a * n <= b * n
  {}

  lemma Quotient(x: nat, d: nat, q: nat, r: nat)
    requires x == q * d + r && r < d
    ensures x / d == q
  {
    var p := x / d;
    assert x == p * d + x % d;
    if p > q {
      MulMonotone(q + 1, p, d);
    } else if p < q {
      MulMonotone(p + 1, q, d);
    }
  }

  lemma QuotientTwice(n: nat, a: nat)
    requires a > 0
    ensures n / 256 / a == n / (256 * a)
  {
    var q, r, x := n / 256, n % 256, n / 256 / a;
    assert q == x * a + q % a;
    assert n == x * (256 * a) + (256 * (q % a) + r);
    Quotient(n, 256 * a, x, 256 * (q % a) + r);
  }

  /** Byte j of a word is its j-th digit to the base 256, the lowest first. */
  lemma {:induction false} ByteAt(n: nat, k: nat, j: nat)
    requires j < k
    ensures Bytes(n, k)[j] == n / Pow256(j) % 256
  {
    if j > 0 {
      ByteAt(n / 256, k - 1, j - 1);
      QuotientTwice(n, Pow256(j - 1));
    }
  }

  /** Where each byte of a request is on the wire: id, generation time, length, each of eight bytes, then the payload. */
  lemma WireLayout(r: Request, j: nat)
    requires j < 24 + |r.data|
    ensures |Encoded(r)| == 24 + |r.data|
    ensures Encoded(r)[j] == if j < 8 then r.id / Pow256(j) % 256
                             else if j < 16 then r.genNs / Pow256(j - 8) % 256
                             else if j < 24 then |r.data| / Pow256(j - 16) % 256
                             else r.data[j - 24]
  {
    hide Pow256, Bytes;
    if j < 8 {
      ByteAt(r.id, 8, j);
    } else if j < 16 {
      ByteAt(r.genNs, 8, j - 8);
    } else if j < 24 {
      ByteAt(|r.data|, 8, j - 16);
    }
  }

  /** What reading one request comes to: the request, the client taken for gone, or the server giving up. */
  datatype Parsed = Got(req: Request, rest: seq<byte>) | Left(rest: seq<byte>) | Died

  /** `recvfull`: as many bytes as asked for, or all there are. */
  function Prefix(s: seq<byte>, n: nat): seq<byte> {
    if n <= |s| then s[..n] else s
  }

  /** Header, check, payload, check; nothing read at all counts as a client that has gone. */
  function Parse(s: seq<byte>): Parsed {
    var h := Prefix(s, HEADER_BYTES);
    if h == [] then Left(s)
    else if |h| < HEADER_BYTES then Died
    else
      var len := WordOf(h[16..24]);
      var p := Prefix(s[24..], len);
      if p == [] then Left(s[24..])
      else if |p| < len then Died
      else Got(Request(WordOf(h[..8]), WordOf(h[8..16]), p), s[24 + len..])
  }

  lemma HeaderFields(r: Request, len: Word, rest: seq<byte>)
    ensures var s := Header(r, len) + rest;
            && Prefix(s, HEADER_BYTES) == Header(r, len) && s[24..] == rest
            && WordOf(s[..8]) == r.id && WordOf(s[8..16]) == r.genNs && WordOf(s[16..24]) == len
  {
    var s := Header(r, len) + rest;
    WordOfBytes(r.id);
    WordOfBytes(r.genNs);
    WordOfBytes(len);
    hide Bytes, WordOf;
    assert s[..8] == Bytes(r.id, 8) && s[8..16] == Bytes(r.genNs, 8) && s[16..24] == Bytes(len, 8);
  }

  /** A request is recovered, with nothing of what follows, exactly when it has a payload. */
  lemma RoundTripExactly(r: Request, rest: seq<byte>)
    requires |r.data| <= MAX_REQ_BYTES
    ensures Parse(Encoded(r) + rest) == if r.data == [] then Left(rest) else Got(r, rest)
  {
    var len := |r.data|;
    var s := Encoded(r) + rest;
    assert s == Header(r, len) + (r.data + rest);
    HeaderFields(r, len, r.data + rest);
    var h := Prefix(s, HEADER_BYTES);
    assert h[..8] == s[..8] && h[8..16] == s[8..16] && h[16..24] == s[16..24];
    assert s[24..] == r.data + rest;
    assert s[24 + len..] == rest;
    assert Prefix(r.data + rest, len) == r.data;
  }

  // Partial transfers

  function Min(a: int, b: int): int { if a < b then a else b }

  /**
   How many of `len` bytes a loop of system calls moves, with `avail` there to
   move: the calls move as many bytes as granted, or fewer if fewer are left; a
   grant below one is an error, and so is one that is missing.
   */
  function Arrived(avail: nat, len: nat, gs: seq<int>): (n: nat)
    ensures n <= len && n <= avail
    decreases len
  {
    if len == 0 || avail == 0 || |gs| == 0 || gs[0] < 1 then 0
    else
      var moved := Min(Min(gs[0], len), avail);
      moved + Arrived(avail - moved, len - moved, gs[1..])
  }

  /** Grants without an error, enough to move n bytes one by one. */
  predicate Plenty(gs: seq<int>, n: nat) {
    n <= |gs| && forall k :: 0 <= k < |gs| ==> gs[k] >= 1
  }

  lemma {:induction false} PlentyMovesAll(avail: nat, len: nat, gs: seq<int>)
    requires Plenty(gs, Min(avail, len))
    ensures Arrived(avail, len, gs) == Min(avail, len)
    decreases len
  {
    if len > 0 && avail > 0 {
      var moved := Min(Min(gs[0], len), avail);
      PlentyMovesAll(avail - moved, len - moved, gs[1..]);
    }
  }

  /** The bytes of s that arrive. */
  function Part(s: seq<byte>, len: nat, gs: seq<int>): seq<byte> {
    s[..Arrived(|s|, len, gs)]
  }

  /** Reading one request with what the system calls grant for its header and for its payload. */
  function Read(s: seq<byte>, header: seq<int>, payload: seq<int>): Parsed {
    var h := Part(s, HEADER_BYTES, header);
    if h == [] then Left(s)
    else if |h| < HEADER_BYTES then Died
    else
      var len := WordOf(h[16..24]);
      var p := Part(s[24..], len, payload);
      if p == [] then Left(s[24..])
      else if |p| < len then Died
      else Got(Request(WordOf(h[..8]), WordOf(h[8..16]), p), s[24 + len..])
  }

  lemma ReadIsParse(s: seq<byte>, header: seq<int>, payload: seq<int>)
    requires Plenty(header, |s|) && Plenty(payload, |s|)
    ensures Read(s, header, payload) == Parse(s)
  {
    PlentyMovesAll(|s|, HEADER_BYTES, header);
    if |s| >= HEADER_BYTES {
      PlentyMovesAll(|s| - HEADER_BYTES, WordOf(s[16..24]), payload);
      assert Part(s, HEADER_BYTES, header)[16..24] == s[16..24];
    }
  }

  /**
   What becomes of a client, for any errors: it counts as gone exactly when no
   byte of the header or none of the payload arrived before an error or the end;
   the server gives up exactly when some arrived but fewer than expected; and a
   request that is read is the one that was sent.
   */
  lemma ReadExactly(s: seq<byte>, header: seq<int>, payload: seq<int>)
    ensures var r, h := Read(s, header, payload), Arrived(|s|, HEADER_BYTES, header);
            && (h < HEADER_BYTES ==> (r.Left? <==> h == 0) && (r.Died? <==> h > 0))
            && (h == HEADER_BYTES ==>
                  var len := WordOf(s[16..24]);
                  var p := Arrived(|s| - HEADER_BYTES, len, payload);
                  && (r.Left? <==> p == 0) && (r.Died? <==> 0 < p < len) && (r.Got? <==> 0 < p == len))
            && (r.Got? ==> r == Parse(s))
            && (r.Left? ==> |r.rest| <= |s|)
  {
    if Arrived(|s|, HEADER_BYTES, header) == HEADER_BYTES {
      assert Part(s, HEADER_BYTES, header)[16..24] == s[16..24];
      var len := WordOf(s[16..24]);
      if Arrived(|s| - HEADER_BYTES, len, payload) == len {
        assert Part(s[24..], len, payload) == Prefix(s[24..], len);
      }
    }
  }

  /** An error on the first call makes a client that has sent a request count as gone, the request unread. */
  lemma ErrorReadsAsDisconnect(r: Request, rest: seq<byte>, payload: seq<int>)
    requires r.data != [] && |r.data| <= MAX_REQ_BYTES
    ensures Read(Encoded(r) + rest, [-1], payload) == Left(Encoded(r) + rest)
    ensures Parse(Encoded(r) + rest) == Got(r, rest)
  {
    RoundTripExactly(r, rest);
  }

  // Sessions

  /** Everything a client sends. */
  function Session(rs: seq<Request>): seq<byte> {
    if |rs| == 0 then [] else Encoded(rs[0]) + Session(rs[1..])
  }

  /** The requests the server reads from a stream until the client counts as gone. */
  function Received(s: seq<byte>): seq<Request>
    decreases |s|
  {
    match Parse(s)
    case Got(r, rest) => [r] + Received(rest)
    case Left(_) => []
    case Died => []
  }

  /** The requests before the first one without a payload. */
  function UpToEmpty(rs: seq<Request>): seq<Request> {
    if |rs| == 0 || rs[0].data == [] then [] else [rs[0]] + UpToEmpty(rs[1..])
  }

  ghost predicate FitsBuffer(rs: seq<Request>) { forall r | r in rs :: |r.data| <= MAX_REQ_BYTES }

  lemma {:induction false} SessionReceived(rs: seq<Request>)
    requires FitsBuffer(rs)
    ensures Received(Session(rs)) == UpToEmpty(rs)
  {
    if |rs| > 0 {
      RoundTripExactly(rs[0], Session(rs[1..]));
      assert forall r | r in rs[1..] :: r in rs;
      SessionReceived(rs[1..]);
    }
  }

  lemma {:induction false} UpToEmptyIsAll(rs: seq<Request>)
    ensures UpToEmpty(rs) == rs <==> forall r | r in rs :: r.data != []
  {
    if |rs| > 0 {
      UpToEmptyIsAll(rs[1..]);
      if forall r | r in rs :: r.data != [] {
        assert forall r | r in rs[1..] :: r in rs;
      }
      if UpToEmpty(rs) == rs {
        assert |rs[1..]| + 1 == |UpToEmpty(rs)|;
        assert UpToEmpty(rs[1..]) == rs[1..];
        forall r | r in rs ensures r.data != [] {
          if r != rs[0] { assert r in rs[1..]; }
        }
      }
    }
  }

  /** The server recovers exactly the requests that were sent if and only if all have a payload. */
  lemma SessionRoundTripExactly(rs: seq<Request>)
    requires FitsBuffer(rs)
    ensures Received(Session(rs)) == rs <==> forall r | r in rs :: r.data != []
  {
    SessionReceived(rs);
    UpToEmptyIsAll(rs);
  }

  // Responses

  const RESPONSE := 0
  const RESP_HEADER_BYTES := 32

  /** Any other kind is a notice: it is sent without payload, whatever its length field says. */
  datatype Response = Response(kind: Word, id: Word, svcNs: Word, len: Word, data: seq<byte>)

  datatype ParsedResponse = Answer(resp: Response, rest: seq<byte>) | Failed

  /** The same with what the system calls grant. */
  function ReadResponse(s: seq<byte>, header: seq<int>, payload: seq<int>): ParsedResponse {
    var h := Part(s, RESP_HEADER_BYTES, header);
    if |h| != RESP_HEADER_BYTES then Failed
    else
      var kind, len := WordOf(h[..8]), WordOf(h[24..32]);
      var p := if kind == RESPONSE then Part(s[32..], len, payload) else [];
      if kind == RESPONSE && |p| != len then Failed
      else Answer(Response(kind, WordOf(h[8..16]), WordOf(h[16..24]), len, p), s[32 + |p|..])
  }

  /** Without an error the client gets what was sent; with one it fails, or has it all the same. */
  lemma ReadResponseExactly(s: seq<byte>, header: seq<int>, payload: seq<int>)
    ensures var r := ReadResponse(s, header, payload);
            && (r.Answer? ==> r == ParseResponse(s))
            && (Plenty(header, |s|) && Plenty(payload, |s|) ==> r == ParseResponse(s))
  {
    if Plenty(header, |s|) && Plenty(payload, |s|) {
      PlentyMovesAll(|s|, RESP_HEADER_BYTES, header);
    }
    if Arrived(|s|, RESP_HEADER_BYTES, header) == RESP_HEADER_BYTES {
      var len := WordOf(s[24..32]);
      assert Part(s, RESP_HEADER_BYTES, header) == s[..32] == Prefix(s, RESP_HEADER_BYTES);
      assert s[..32][24..32] == s[24..32];
      if Plenty(header, |s|) && Plenty(payload, |s|) {
        PlentyMovesAll(|s| - 32, len, payload);
      }
      assert Arrived(|s| - 32, len, payload) == Min(|s| - 32, len) ==> Part(s[32..], len, payload) == Prefix(s[32..], len);
    }
  }

  predicate WellFormed(r: Response) {
    if r.kind == RESPONSE then |r.data| == r.len else r.data == []
  }

  function EncodedResponse(r: Response): seq<byte> {
    Bytes(r.kind, WORD_BYTES) + Bytes(r.id, WORD_BYTES) + Bytes(r.svcNs, WORD_BYTES) + Bytes(r.len, WORD_BYTES) + r.data
  }

  /** `NetworkedClient::recv`. */
  function ParseResponse(s: seq<byte>): ParsedResponse {
    var h := Prefix(s, RESP_HEADER_BYTES);
    if |h| != RESP_HEADER_BYTES then Failed
    else
      var kind, len := WordOf(h[..8]), WordOf(h[24..32]);
      var p := if kind == RESPONSE then Prefix(s[32..], len) else [];
      if kind == RESPONSE && |p| != len then Failed
      else Answer(Response(kind, WordOf(h[8..16]), WordOf(h[16..24]), len, p), s[32 + |p|..])
  }

  lemma FourParts(a: seq<byte>, b: seq<byte>, c: seq<byte>, d: seq<byte>, rest: seq<byte>)
    requires |a| == |b| == |c| == |d| == 8
    ensures var s := a + b + c + d + rest;
            s[..8] == a && s[8..16] == b && s[16..24] == c && s[24..32] == d && s[32..] == rest
  {}

  /** Answers and notices come through as they were sent, an empty answer too. */
  lemma ResponseRoundTrip(r: Response, rest: seq<byte>)
    requires WellFormed(r)
    ensures ParseResponse(EncodedResponse(r) + rest) == Answer(r, rest)
  {
    var s := EncodedResponse(r) + rest;
    var words := Bytes(r.kind, 8) + Bytes(r.id, 8) + Bytes(r.svcNs, 8) + Bytes(r.len, 8);
    assert s == words + (r.data + rest);
    FourParts(Bytes(r.kind, 8), Bytes(r.id, 8), Bytes(r.svcNs, 8), Bytes(r.len, 8), r.data + rest);
    WordOfBytes(r.kind);
    WordOfBytes(r.id);
    WordOfBytes(r.svcNs);
    WordOfBytes(r.len);
    hide Bytes, Value, WordOf;
    var h := Prefix(s, RESP_HEADER_BYTES);
    assert h[..8] == s[..8] && h[8..16] == s[8..16] && h[16..24] == s[16..24] && h[24..32] == s[24..32];
    assert s[32 + |r.data|..] == rest;
    assert Prefix(r.data + rest, |r.data|) == r.data;
  }
}
