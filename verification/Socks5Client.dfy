/**
 The client half of the handshake, and how the two halves fit together: the server asks
 for exactly the connection the client encoded, and the client takes exactly the server's
 replies off the stream.
 */
module Socks5Client {
  import opened Bytes
  import opened Socks5
  import Socks5Grammar

  /** Greeting and connect request, sent in one piece. */
  function Request(a: SockAddr): seq<Byte> {
    [5, 1, 0] + ([5, 1, 0] + FillAddrPort(a))
  }

  const EXPECTED: seq<Byte> := [5, 0, 5, 0, 0]

  /** How many bytes follow the seven that reveal the address type. */
  function Remaining(atyp: Byte, extra: Byte): nat {
    if atyp == 1 then 5 else if atyp == 3 then Value(extra) + 2 else if atyp == 4 then 17 else 7
  }

  /** How many bytes the client needs, as far as the stream tells. */
  function Needed(s: seq<Byte>): nat {
    if |s| < 7 || s[..5] != EXPECTED then 7 else 7 + Remaining(s[5], s[6])
  }

  /** What the client makes of a stream: the result, and the number of bytes taken. */
  function Receive(s: seq<Byte>): (int, nat) {
    if |s| < 7 then (-1, |s|)
    else if s[..5] != EXPECTED then (if s[3] != 0 then -(Value(s[3]) as int) else -1, 7)
    else
      var n := 7 + Remaining(s[5], s[6]);
      if |s| < n then (-1, |s|) else (0, n)
  }

  /** What one call of `recv` does: deliver up to `n` bytes and at least one, get interrupted, or fail. */
  datatype Recv = Deliver(n: nat) | Interrupted | Broken

  /** Reads `len` bytes, resuming after interruptions; `events` are the outcomes of the system calls to come. */
  method RecvAll(events: seq<Recv>, pos: nat, stream: seq<Byte>, len: nat)
    returns (got: seq<Byte>, pos': nat, stream': seq<Byte>)
    requires pos <= |events|
    ensures got + stream' == stream && |got| <= len && pos <= pos' <= |events|
    ensures |got| < len ==> stream' == [] || pos' == |events| || (pos' < |events| && events[pos'] == Broken)
  {
    got, pos', stream' := [], pos, stream;
    while |got| < len && pos' < |events|
      invariant got + stream' == stream && |got| <= len && pos <= pos' <= |events|
      decreases |events| - pos'
    {
      match events[pos']
      case Interrupted =>
        pos' := pos' + 1;
      case Broken =>
        return;
      case Deliver(n) =>
        if stream' == [] {
          return;
        }
        var k := Min(Min(n + 1, len - |got|), |stream'|);
        assert got + stream' == (got + stream'[..k]) + stream'[k..];
        got, stream', pos' := got + stream'[..k], stream'[k..], pos' + 1;
    }
  }

  /**
   Connects through the proxy.  `delivered` is whether the request went out whole; `short`
   tells that the replies did not come in whole, and then `pos` is the system call it ended with.
   */
  method ClientConnect(a: SockAddr, delivered: bool, events: seq<Recv>, stream: seq<Byte>)
    returns (sent: seq<Byte>, r: int, short: bool, pos: nat, rest: seq<Byte>)
    ensures a == Other ==> sent == []
    ensures a != Other ==> sent == Request(a)
    ensures a == Other || !delivered ==> r == -1 && rest == stream
    ensures a != Other && delivered && !short ==>
              r == Receive(stream).0 && Receive(stream).1 <= |stream| && rest == stream[Receive(stream).1..]
    ensures short ==>
              r == -1 && (|stream| < Needed(stream) || pos == |events| || (pos < |events| && events[pos] == Broken))
  {
    rest, short, pos := stream, false, 0;
    if FillAddrPort(a) == [] {
      return [], -1, false, 0, stream;
    }
    sent := Request(a);
    if !delivered {
      return sent, -1, false, 0, stream;
    }
    var got;
    got, pos, rest := RecvAll(events, 0, rest, 7);
    if |got| != 7 {
      return sent, -1, true, pos, rest;
    }
    assert got == stream[..7] && rest == stream[7..];
    assert got[..5] == stream[..5];
    if got[..5] != EXPECTED {
      r := if got[3] != 0 then -(Value(got[3]) as int) else -1;
      return;
    }
    var n := Remaining(got[5], got[6]);
    got, pos, rest := RecvAll(events, pos, rest, n);
    if |got| != n {
      return sent, -1, true, pos, rest;
    }
    r := 0;
  }

  // ----------------------------------------------------------- the two halves together

  /** The client's greeting and request are a message with one method. */
  lemma RequestEncodes(a: SockAddr, cmd: Byte) returns (q: Socks5Grammar.Message)
    requires Sized(a) && a != Other
    ensures Socks5Grammar.Sendable(q) && Socks5Grammar.Target(q) == a && q.cmd == cmd
    ensures Socks5Grammar.Encode(q) == [5, 1, 0] + ([5, cmd, 0] + FillAddrPort(a))
    ensures Socks5Grammar.Greets(q.version, q.methods) && Socks5Grammar.Asks(q, cmd)
    ensures q.body[|q.body| - 2..] == a.port
  {
    q := Socks5Grammar.Message(5, [0], 5, cmd, 0, if a.V4? then 1 else 4, a.ip + a.port);
    assert q.body[..|a.ip|] == a.ip && q.body[|a.ip|..] == a.port;
    assert Socks5Grammar.Greeting(5, [0]) == [5, 1, 0];
  }

  /**
   For every address and however the request is cut into reads, the server asks for a
   connection to exactly that address and leaves what follows the request untouched.
   */
  lemma ServerDecodesRequest(e: Env, a: SockAddr, x: seq<Byte>, chunks: seq<seq<Byte>>)
    requires Sized(a) && a != Other && chunks != [] && Concat(chunks) == Request(a) + x
    requires e.connectSet && e.status([Respond(GREETING_REPLY)]) == OK
    ensures var c, u := RunChunks(e, START, chunks), [Respond(GREETING_REPLY), Connect(a)];
            u <= c.trace && c.rest == x && (e.status(u) == InProgress ==> c.state == WaitConnect && c.trace == u)
  {
    hide Step;
    var q := RequestEncodes(a, 1);
    Socks5Grammar.MessageExact(e, q, x, chunks);
    assert Socks5Grammar.GREETED + [Connect(a)] == [Respond(GREETING_REPLY), Connect(a)];
  }

  /**
   A bind request in any chunks: exactly the port asked for is bound, whatever the address, and
   the reply carries exactly the port that was bound.
   */
  lemma ServerDecodesBind(e: Env, a: SockAddr, x: seq<Byte>, chunks: seq<seq<Byte>>)
    requires Sized(a) && a != Other && chunks != []
    requires Concat(chunks) == [5, 1, 0] + ([5, 2, 0] + FillAddrPort(a)) + x
    requires e.status([Respond(GREETING_REPLY)]) == OK && e.status([Respond(GREETING_REPLY), Bind(a.port)]) != Failed
    ensures var c, u := RunChunks(e, START, chunks), [Respond(GREETING_REPLY), Bind(a.port)];
            && c.trace == u + [Respond([5, 0, 0, 1, 0, 0, 0, 0, e.port(u).0, e.port(u).1])] && c.rest == x
            && c.state == if e.status(c.trace) == Failed then Fail else WaitAccept
  {
    hide Step;
    var q := RequestEncodes(a, 2);
    Socks5Grammar.MessageExact(e, q, x, chunks);
    assert Socks5Grammar.GREETED + [Bind(a.port)] == [Respond(GREETING_REPLY), Bind(a.port)];
  }

  /** The bytes the server has sent to the client. */
  function Sent(trace: seq<Call>): seq<Byte> {
    if trace == [] then []
    else
      var last := trace[|trace| - 1];
      Sent(trace[..|trace| - 1]) + (if last.Respond? then last.data else [])
  }

  /** An address as RFC 1928, section 6, has it: IPv4, a name with its length in front, or IPv6; then the port. */
  predicate Addressed(atyp: Byte, addr: seq<Byte>) {
    || (atyp == 1 && |addr| == 6)
    || (atyp == 3 && |addr| > 0 && |addr| == 1 + Value(addr[0]) + 2)
    || (atyp == 4 && |addr| == 18)
  }

  /** The client takes exactly the two replies off the stream, for every such address and whatever is behind it. */
  lemma ClientAccepts(atyp: Byte, addr: seq<Byte>, y: seq<Byte>)
    requires Addressed(atyp, addr)
    ensures var reply := GREETING_REPLY + ([5, 0, 0] + ([atyp] + addr)); Receive(reply + y) == (0, |reply|)
  {
    var s := GREETING_REPLY + ([5, 0, 0] + ([atyp] + addr)) + y;
    assert s[..5] == EXPECTED;
    assert s[5] == atyp && s[6] == addr[0];
  }

  /** Of an address type it does not know the client takes eight bytes for the address. */
  lemma ClientGuesses(atyp: Byte, addr: seq<Byte>, y: seq<Byte>)
    requires atyp != 1 && atyp != 3 && atyp != 4 && |addr| == 8
    ensures var reply := GREETING_REPLY + ([5, 0, 0] + ([atyp] + addr)); Receive(reply + y) == (0, |reply|)
  {
    var s := GREETING_REPLY + ([5, 0, 0] + ([atyp] + addr)) + y;
    assert s[..5] == EXPECTED;
    assert s[5] == atyp && s[6] == addr[0];
  }

  /** Of replies that break off, wherever that is, it makes a failure, and nothing is left. */
  lemma ClientStarves(s: seq<Byte>, k: nat)
    requires Receive(s) == (0, |s|) && k < |s|
    ensures Receive(s[..k]) == (-1, k)
  {
    if k >= 7 {
      assert s[..k][..5] == s[..5];
    }
  }

  /** With other first bytes it fails, with the server's code if there is one. */
  lemma ClientRejects(h: seq<Byte>, y: seq<Byte>)
    requires |h| == 7 && h[..5] != GREETING_REPLY + [5, 0, 0]
    ensures var (r, n) := Receive(h + y); r < 0 && n == 7 && (h[3] != 0 ==> r == -(Value(h[3]) as int))
  {
    assert (h + y)[..5] == h[..5];
  }

  /**
   So it takes the two replies off the stream, whatever the destination sends behind them, if
   the bound address has a representation ...
   */
  lemma ClientTakesReply(b: SockAddr, y: seq<Byte>)
    requires Sized(b) && b != Other
    ensures var reply := GREETING_REPLY + ([5, 0, 0] + FillAddrPort(b)); Receive(reply + y) == (0, |reply|)
  {
    var f := FillAddrPort(b);
    assert f == [f[0]] + f[1..];
    ClientAccepts(f[0], f[1..], y);
  }

  /** ... and never if it has none: then it fails, or takes the first bytes of the destination for the address. */
  lemma ClientOverreads(y: seq<Byte>)
    ensures var reply := GREETING_REPLY + ([5, 0, 0] + FillAddrPort(Other));
            Receive(reply + y).0 == 0 ==> Receive(reply + y).1 > |reply|
  {
  }

  /**
   The whole exchange: request in any chunks, connection, reply.  The client is told exactly
   the bound address, and the destination stream reaches it untouched exactly if that is an
   IPv4 or IPv6 one.
   */
  lemma HandshakeComposes(e: Env, a: SockAddr, x: seq<Byte>, chunks: seq<seq<Byte>>, y: seq<Byte>)
    requires Sized(a) && a != Other && chunks != [] && Concat(chunks) == Request(a) + x
    requires e.connectSet && e.status([Respond(GREETING_REPLY)]) == OK
    requires e.status([Respond(GREETING_REPLY), Connect(a)]) == InProgress
    requires e.addressSet && e.status([Respond(GREETING_REPLY), Connect(a), DestAddress(false)]) == OK
    requires Sized(e.address([Respond(GREETING_REPLY), Connect(a), DestAddress(false)]))
    ensures var c := ConnectionSucceed(e, RunChunks(e, START, chunks)).0;
            && c.state == Success && c.rest == x
            && (Receive(Sent(c.trace) + y) == (0, |Sent(c.trace)|)
                <==> e.address([Respond(GREETING_REPLY), Connect(a), DestAddress(false)]) != Other)
            && |Sent(c.trace)| >= 5
            && Socks5Grammar.ParseAddr(Sent(c.trace)[5..])
               == e.address([Respond(GREETING_REPLY), Connect(a), DestAddress(false)])
  {
    ServerDecodesRequest(e, a, x, chunks);
    var t := [Respond(GREETING_REPLY), Connect(a)];
    var u := t + [DestAddress(false)];
    assert u == [Respond(GREETING_REPLY), Connect(a), DestAddress(false)];
    var b := e.address(u);
    var resp := [5, 0, 0] + FillAddrPort(b);
    var c := ConnectionSucceed(e, Conf(WaitConnect, 0, t, x)).0;
    assert c.trace == u + [Respond(resp)];
    SentReplies(a, resp);
    Socks5Grammar.AddrRoundTrip(b);
    assert (GREETING_REPLY + resp)[5..] == FillAddrPort(b);
    if b == Other {
      ClientOverreads(y);
    } else {
      ClientTakesReply(b, y);
    }
  }

  /** Callbacks that succeed, a connection that takes time, and a client that is gone when it is there. */
  function ClientGone(b: SockAddr): Env {
    Env(true, true, (t: seq<Call>) => if |t| == 2 then InProgress else if |t| <= 3 then OK else Failed, _ => b,
        _ => (0, 0))
  }

  /**
   Such a handshake, for every request in any chunks, gets to the connection without a failed
   callback, and then succeeds although the reply has failed.
   */
  lemma SucceedsUnheard(a: SockAddr, b: SockAddr, x: seq<Byte>, chunks: seq<seq<Byte>>)
    requires Sized(a) && a != Other && chunks != [] && Concat(chunks) == Request(a) + x
    ensures var e := ClientGone(b); var c := RunChunks(e, START, chunks); var (d, r) := ConnectionSucceed(e, c);
            && c.state == WaitConnect && r && d.state == Success && !Described(e, c, r)
            && e.status(d.trace) == Failed && forall k | 0 < k < |d.trace| :: e.status(d.trace[..k]) != Failed
  {
    ServerDecodesRequest(ClientGone(b), a, x, chunks);
  }

  /** A server that cannot tell its own address says so, and the client fails. */
  lemma ClientSeesFailure(y: seq<Byte>)
    ensures Receive(GREETING_REPLY + ERROR_REPLY + y).0 == -1
  {
    var s := GREETING_REPLY + ERROR_REPLY + y;
    assert s[..5] != EXPECTED by {
      assert s[3] == 1 && s[..5][3] == s[3];
    }
  }

  lemma SentReplies(a: SockAddr, resp: seq<Byte>)
    ensures var t := [Respond(GREETING_REPLY), Connect(a)] + [DestAddress(false)] + [Respond(resp)];
            Sent(t) == GREETING_REPLY + resp
  {
    var t1 := [Respond(GREETING_REPLY)];
    var t2 := [Respond(GREETING_REPLY), Connect(a)];
    var t3 := t2 + [DestAddress(false)];
    var t4 := t3 + [Respond(resp)];
    assert t4[..3] == t3 && t3[..2] == t2 && t2[..1] == t1 && t1[..0] == [];
    assert Sent([]) == [] && Sent(t1) == [] + GREETING_REPLY == GREETING_REPLY;
    assert Sent(t3) == Sent(t2) == Sent(t1);
  }
}
