/**
 Which byte streams the handshake accepts, and what it does with them (RFC 1928, sections 3,
 4 and 6): a whole request as a message, and the outcome for every such message.
 */
module Socks5Grammar {
  import opened Bytes
  import opened Socks5

  /** Greeting and request as a client sends them; nothing is said about their values. */
  datatype Message = Message(version: Byte, methods: seq<Byte>,
                             ver: Byte, cmd: Byte, rsv: Byte, atyp: Byte, body: seq<Byte>)

  /** The method count is a byte, and the body has the length its address type calls for. */
  predicate Sendable(q: Message) {
    0 < |q.methods| < 256 && |q.body| == if q.atyp == 4 then 18 else 6
  }

  function Greeting(version: Byte, methods: seq<Byte>): seq<Byte>
    requires |methods| < 256
  {
    [version, |methods| as Byte] + methods
  }

  function Encode(q: Message): seq<Byte>
    requires Sendable(q)
  {
    Greeting(q.version, q.methods) + ([q.ver, q.cmd, q.rsv, q.atyp] + q.body)
  }

  /** No authentication is among the methods offered. */
  predicate Greets(version: Byte, methods: seq<Byte>) {
    version == 5 && 0 in methods
  }

  predicate Asks(q: Message, cmd: Byte) {
    q.ver == 5 && q.cmd == cmd && q.rsv == 0 && (q.atyp == 1 || q.atyp == 4)
  }

  /** The address in the body: the last two bytes are the port. */
  function Target(q: Message): SockAddr
    requires Sendable(q)
  {
    if q.atyp == 1 then V4(q.body[..4], q.body[4..]) else V6(q.body[..|q.body| - 2], q.body[|q.body| - 2..])
  }

  const GREETED := [Respond(GREETING_REPLY)]

  // --------------------------------------------------------------------- the greeting

  /** A step with its bytes at the front of the stream. */
  lemma Front(c: Conf, taken: seq<Byte>, x: seq<Byte>)
    requires Wf(c) && c.rest == taken + x && |taken| == c.required
    ensures c.required <= |c.rest| && c.rest[..c.required] == taken && c.rest[c.required..] == x
  {
  }

  /** Two bytes announce the methods, if the version is right and there are any. */
  lemma GreetingHeaderExact(e: Env, v: Byte, n: Byte, y: seq<Byte>)
    ensures var c := Run(e, Feed(START, [v, n] + y));
            if v == 5 && n > 0 then
              var d := Conf(GreetingMethods, Value(n), [], y); Wf(d) && c == Run(e, d)
            else c == Conf(Fail, 2, [], y)
  {
    var c := Feed(START, [v, n] + y);
    Front(c, [v, n], y);
    RunUnfold(e, c);
  }

  /** The methods are accepted exactly if one of them is no authentication. */
  lemma MethodsExact(e: Env, ms: seq<Byte>, x: seq<Byte>)
    requires 0 < |ms| < 256
    ensures var c := Run(e, Conf(GreetingMethods, |ms|, [], ms + x));
            if 0 !in ms then c == Conf(Fail, |ms|, [], x)
            else if e.status(GREETED) != OK then c == Conf(Fail, |ms|, GREETED, x)
            else c == Run(e, Conf(RequestHeader, 4, GREETED, x))
  {
    var c := Conf(GreetingMethods, |ms|, [], ms + x);
    Front(c, ms, x);
    assert [] + GREETED == GREETED;
    RunUnfold(e, c);
  }

  /**
   A whole greeting: its answer is the first callback if and only if the version is 5 and no
   authentication is offered, anywhere in the list; otherwise the handshake fails in silence.
   */
  lemma GreetingExact(e: Env, v: Byte, ms: seq<Byte>, x: seq<Byte>)
    requires 0 < |ms| < 256
    ensures var c := Run(e, Feed(START, Greeting(v, ms) + x));
            if !Greets(v, ms) then c.state == Fail && c.trace == []
            else if e.status(GREETED) != OK then c == Conf(Fail, |ms|, GREETED, x)
            else c == Run(e, Conf(RequestHeader, 4, GREETED, x))
  {
    hide Step;
    var n := |ms| as Byte;
    assert Greeting(v, ms) + x == [v, n] + (ms + x);
    GreetingHeaderExact(e, v, n, ms + x);
    MethodsExact(e, ms, x);
  }

  /** A greeting that is still incomplete is waited for, without a callback. */
  lemma GreetingWaits(e: Env, n: Byte, ms: seq<Byte>)
    requires |ms| < Value(n)
    ensures Run(e, Feed(START, [5, n] + ms)) == Conf(GreetingMethods, Value(n), [], ms)
    ensures forall b: Byte {:trigger [b]} :: Run(e, Feed(START, [b])) == Feed(START, [b])
  {
    GreetingHeaderExact(e, 5, n, ms);
    RunUnfold(e, Conf(GreetingMethods, Value(n), [], ms));
    forall b: Byte
      ensures Run(e, Feed(START, [b])) == Feed(START, [b])
    {
      RunUnfold(e, Feed(START, [b]));
    }
  }

  // ---------------------------------------------------------------------- the request

  /** Four bytes lead on if and only if they are version 5, connect or bind, a zero, and IPv4 or IPv6. */
  lemma HeaderExact(e: Env, t: seq<Call>, v: Byte, cmd: Byte, rsv: Byte, atyp: Byte, y: seq<Byte>)
    ensures var c := Run(e, Conf(RequestHeader, 4, t, [v, cmd, rsv, atyp] + y));
            if v == 5 && (cmd == 1 || cmd == 2) && rsv == 0 && (atyp == 1 || atyp == 4) then
              var s := if cmd == 2 then RequestBind else if atyp == 1 then RequestAddrV4 else RequestAddrV6;
              c == Run(e, Conf(s, if atyp == 1 then 6 else 18, t, y))
            else c == Conf(Fail, 4, t, y)
  {
    var c := Conf(RequestHeader, 4, t, [v, cmd, rsv, atyp] + y);
    Front(c, [v, cmd, rsv, atyp], y);
    RunUnfold(e, c);
  }

  /** The reply to a connection that is there: the address asked for, or an error if it is not known. */
  function ReplyOf(e: Env, t: seq<Call>, remote: bool): seq<Byte> {
    var asked := t + [DestAddress(remote)];
    if e.addressSet && e.status(asked) == OK then [5, 0, 0] + FillAddrPort(e.address(asked)) else ERROR_REPLY
  }

  /** The history with that reply, for which the address has been asked for if it can be. */
  function Replied(e: Env, t: seq<Call>, remote: bool): seq<Call> {
    (if e.addressSet then t + [DestAddress(remote)] else t) + [Respond(ReplyOf(e, t, remote))]
  }

  lemma ResponseExact(e: Env, t: seq<Call>, x: seq<Byte>)
    ensures var c := Run(e, Conf(Response, 0, t, x));
            var u := Replied(e, t, false);
            c == if e.status(u) == OK then Conf(Success, 1, u, x) else Conf(Fail, 0, u, x)
  {
    RunUnfold(e, Conf(Response, 0, t, x));
  }

  /** What each answer of the connect callback leads to. */
  lemma AddressExact(e: Env, t: seq<Call>, a: SockAddr, x: seq<Byte>)
    requires Sized(a) && a != Other
    ensures var (s, n) := if a.V4? then (RequestAddrV4, 6) else (RequestAddrV6, 18);
            var c, u := Run(e, Conf(s, n, t, a.ip + a.port + x)), t + [Connect(a)];
            var w := Replied(e, u, false);
            if !e.connectSet then c == Conf(WaitConnect, 0, t, x)
            else match e.status(u)
                 case InProgress => c == Conf(WaitConnect, 0, u, x)
                 case Failed => c == Conf(Fail, 0, u, x)
                 case OK => c == if e.status(w) == OK then Conf(Success, 1, w, x) else Conf(Fail, 0, w, x)
  {
    var (s, n) := if a.V4? then (RequestAddrV4, 6) else (RequestAddrV6, 18);
    var c := Conf(s, n, t, a.ip + a.port + x);
    Front(c, a.ip + a.port, x);
    assert (a.ip + a.port)[..|a.ip|] == a.ip && (a.ip + a.port)[|a.ip|..] == a.port;
    RunUnfold(e, c);
    if e.connectSet && e.status(t + [Connect(a)]) == OK {
      ResponseExact(e, t + [Connect(a)], x);
    } else if !e.connectSet {
      RunWaits(e, Conf(WaitConnect, 0, t, x));
    }
  }

  /** What each answer of the bind callback leads to; the address is not looked at. */
  lemma BindExact(e: Env, t: seq<Call>, ip: seq<Byte>, port: seq<Byte>, x: seq<Byte>)
    requires (|ip| == 4 || |ip| == 16) && |port| == 2
    ensures var c, u := Run(e, Conf(RequestBind, |ip| + 2, t, (ip + port) + x)), t + [Bind(port)];
            var w := u + [Respond([5, 0, 0, 1, 0, 0, 0, 0, e.port(u).0, e.port(u).1])];
            if e.status(u) == Failed then c == Conf(Fail, 0, u, x)
            else c == Conf(if e.status(w) == Failed then Fail else WaitAccept, 0, w, x)
  {
    var c := Conf(RequestBind, |ip| + 2, t, (ip + port) + x);
    Front(c, ip + port, x);
    assert (ip + port)[|ip|..] == port;
    RunUnfold(e, c);
  }

  // ------------------------------------------------------------------ the whole message

  /** What the handshake has come to after a whole message, with `x` behind it. */
  predicate Outcome(e: Env, q: Message, x: seq<Byte>, c: Conf)
    requires Sendable(q)
  {
    var a := Target(q);
    var u := GREETED + [if Asks(q, 1) then Connect(a) else Bind(q.body[|q.body| - 2..])];
    if !Greets(q.version, q.methods) then c.state == Fail && c.trace == []
    else if e.status(GREETED) != OK || !(Asks(q, 1) || Asks(q, 2)) then c.state == Fail && c.trace == GREETED
    else if Asks(q, 1) && !e.connectSet then c.state == WaitConnect && c.trace == GREETED && c.rest == x
    else if e.status(u) == Failed then c.state == Fail && c.trace == u && c.rest == x
    else if Asks(q, 2) then
      && c.trace == u + [Respond([5, 0, 0, 1, 0, 0, 0, 0, e.port(u).0, e.port(u).1])] && c.rest == x
      && c.state == (if e.status(c.trace) == Failed then Fail else WaitAccept)
    else if e.status(u) == InProgress then c.state == WaitConnect && c.trace == u && c.rest == x
    else c.trace == Replied(e, u, false) && c.rest == x && c.state == if e.status(c.trace) == OK then Success else Fail
  }

  /** Connect and bind requests behind an accepted greeting. */
  lemma RequestExact(e: Env, q: Message, x: seq<Byte>)
    requires Sendable(q) && Greets(q.version, q.methods) && e.status(GREETED) == OK
    ensures Outcome(e, q, x, Run(e, Conf(RequestHeader, 4, GREETED, [q.ver, q.cmd, q.rsv, q.atyp] + (q.body + x))))
  {
    hide Step;
    HeaderExact(e, GREETED, q.ver, q.cmd, q.rsv, q.atyp, q.body + x);
    var n := |q.body| - 2;
    assert q.body == q.body[..n] + q.body[n..];
    if Asks(q, 1) {
      AddressExact(e, GREETED, Target(q), x);
    } else if Asks(q, 2) {
      BindExact(e, GREETED, q.body[..n], q.body[n..], x);
    }
  }

  /**
   For every message, whatever its bytes, and every cut of it into reads: which callbacks are
   made, with which arguments, and where the handshake stands.
   */
  lemma MessageExact(e: Env, q: Message, x: seq<Byte>, chunks: seq<seq<Byte>>)
    requires Sendable(q) && chunks != [] && Concat(chunks) == Encode(q) + x
    ensures Outcome(e, q, x, RunChunks(e, START, chunks))
  {
    hide Step;
    ChunkingInvariance(e, START, chunks);
    var y := [q.ver, q.cmd, q.rsv, q.atyp] + (q.body + x);
    assert Encode(q) + x == Greeting(q.version, q.methods) + y;
    assert [] + Concat(chunks) == Concat(chunks);
    GreetingExact(e, q.version, q.methods, y);
    if Greets(q.version, q.methods) && e.status(GREETED) == OK {
      RequestExact(e, q, x);
    }
  }

  // --------------------------------------------------------------------- the final reply

  /** What reads the address part of a reply: the inverse of writing it. */
  function ParseAddr(b: seq<Byte>): SockAddr {
    if |b| == 7 && b[0] == 1 then V4(b[1..5], b[5..])
    else if |b| == 19 && b[0] == 4 then V6(b[1..17], b[17..])
    else Other
  }

  lemma AddrRoundTrip(a: SockAddr)
    requires Sized(a)
    ensures ParseAddr(FillAddrPort(a)) == a
  {
    if a != Other {
      var b := FillAddrPort(a);
      assert b[1..1 + |a.ip|] == a.ip && b[1 + |a.ip|..] == a.port;
    }
  }

  /**
   When the connection is there, the reply tells the local address, or the peer's after a bind,
   and otherwise it is an error with an empty address; exactly these calls are made.
   */
  lemma FinalReplyExact(e: Env, c: Conf)
    requires c.state == WaitConnect || c.state == WaitAccept
    ensures ConnectionSucceed(e, c) == (c.(trace := Replied(e, c.trace, c.state == WaitAccept), state := Success), true)
    ensures var asked := c.trace + [DestAddress(c.state == WaitAccept)];
            var reply, known := ReplyOf(e, c.trace, c.state == WaitAccept), e.addressSet && e.status(asked) == OK;
            && |reply| >= 3 && reply[..3] == [5, if known then 0 else 1, 0]
            && (!known ==> ParseAddr(reply[3..]) == V4([0, 0, 0, 0], [0, 0]))
            && (known && Sized(e.address(asked)) ==> ParseAddr(reply[3..]) == e.address(asked))
  {
    var asked := c.trace + [DestAddress(c.state == WaitAccept)];
    if Sized(e.address(asked)) {
      AddrRoundTrip(e.address(asked));
      assert ([5, 0, 0] + FillAddrPort(e.address(asked)))[3..] == FillAddrPort(e.address(asked));
    }
  }
}
