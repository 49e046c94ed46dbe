/**
 The SOCKS5 server handshake (RFC 1928, sections 3, 4 and 6) as a function on values.

 A configuration is what the parser has between two calls: its state, the number of bytes
 the state needs, the bytes it has not consumed, and the callbacks it has made so far.
 The environment answers a callback as a function of the callbacks made up to then, so two
 runs are comparable: they see the same answers as long as they make the same calls.
 */
module Socks5 {
  import opened Bytes

  datatype State =
    | GreetingHeader | GreetingMethods | RequestHeader | RequestAddrV4 | RequestAddrV6 | RequestBind
    | WaitConnect | WaitAccept | Response | Success | Fail

  datatype Status = OK | InProgress | Failed

  /** A socket address; address and port are bytes in network order. */
  datatype SockAddr = V4(ip: seq<Byte>, port: seq<Byte>) | V6(ip: seq<Byte>, port: seq<Byte>) | Other

  datatype Call = Respond(data: seq<Byte>) | Connect(addr: SockAddr) | DestAddress(remote: bool) | Bind(port: seq<Byte>)

  /** Which optional callbacks are set, and what each callback answers after a history of calls. */
  datatype Env = Env(connectSet: bool, addressSet: bool,
                     status: seq<Call> -> Status, address: seq<Call> -> SockAddr, port: seq<Call> -> (Byte, Byte))

  datatype Conf = Conf(state: State, required: nat, trace: seq<Call>, rest: seq<Byte>)

  const START := Conf(GreetingHeader, 2, [], [])

  const GREETING_REPLY: seq<Byte> := [5, 0]
  const ERROR_REPLY: seq<Byte> := [5, 1, 0, 1, 0, 0, 0, 0, 0, 0]

  /** The address part of requests and replies; nothing for an address family that has none. */
  function FillAddrPort(a: SockAddr): seq<Byte> {
    match a
    case V4(ip, port) => [1] + ip + port
    case V6(ip, port) => [4] + ip + port
    case Other => []
  }

  predicate Sized(a: SockAddr) {
    match a
    case V4(ip, port) => |ip| == 4 && |port| == 2
    case V6(ip, port) => |ip| == 16 && |port| == 2
    case Other => true
  }

  /** The number of bytes each state waits for. */
  predicate Wf(c: Conf) {
    match c.state
    case GreetingHeader => c.required == 2
    case GreetingMethods => 0 < c.required < 256
    case RequestHeader => c.required == 4
    case RequestAddrV4 => c.required == 6
    case RequestAddrV6 => c.required == 18
    case RequestBind => c.required == 6 || c.required == 18
    case WaitConnect | WaitAccept | Response => c.required == 0
    case Success => c.required <= 1
    case Fail => c.required < 256
  }

  /** The final reply, and the history once the address for it has been asked for. */
  function CreateResp(e: Env, trace: seq<Call>, remote: bool): (seq<Byte>, seq<Call>) {
    if !e.addressSet then (ERROR_REPLY, trace)
    else
      var t := trace + [DestAddress(remote)];
      if e.status(t) == OK then ([5, 0, 0] + FillAddrPort(e.address(t)), t) else (ERROR_REPLY, t)
  }

  function Failing(c: Conf): (Conf, bool) {
    (c.(state := Fail), false)
  }

  function Methods(e: Env, c: Conf, methods: seq<Byte>): (Conf, bool) {
    if 0 !in methods then Failing(c)
    else
      var d := c.(trace := c.trace + [Respond(GREETING_REPLY)]);
      if e.status(d.trace) != OK then Failing(d) else (d.(state := RequestHeader, required := 4), true)
  }

  function Header(c: Conf, h: seq<Byte>): (Conf, bool)
    requires |h| == 4
  {
    if h[0] != 5 || h[2] != 0 || (h[1] != 1 && h[1] != 2) || (h[3] != 1 && h[3] != 4) then Failing(c)
    else
      var n := if h[3] == 1 then 6 else 18;
      var s := if h[1] == 2 then RequestBind else if h[3] == 1 then RequestAddrV4 else RequestAddrV6;
      (c.(required := n, state := s), true)
  }

  function Address(e: Env, c: Conf, a: SockAddr): (Conf, bool) {
    if !e.connectSet then (c.(required := 0, state := WaitConnect), true)
    else
      var d := c.(required := 0, trace := c.trace + [Connect(a)]);
      match e.status(d.trace)
      case OK => (d.(state := Response), true)
      case InProgress => (d.(state := WaitConnect), false)
      case Failed => Failing(d)
  }

  function BindPort(e: Env, c: Conf, port: seq<Byte>): (Conf, bool) {
    var d := c.(required := 0, trace := c.trace + [Bind(port)]);
    if e.status(d.trace) == Failed then Failing(d)
    else
      var p := e.port(d.trace);
      var g := d.(trace := d.trace + [Respond([5, 0, 0, 1, 0, 0, 0, 0, p.0, p.1])]);
      if e.status(g.trace) == Failed then Failing(g) else (g.(state := WaitAccept), false)
  }

  function Reply(e: Env, c: Conf): (Conf, bool) {
    var (resp, t) := CreateResp(e, c.trace, false);
    var d := c.(trace := t + [Respond(resp)]);
    if e.status(d.trace) != OK then Failing(d) else (d.(state := Success, required := 1), true)
  }

  /** One call of `Proceed`: the configuration after it and the value it returns. */
  function Step(e: Env, c: Conf): (Conf, bool)
    requires Wf(c)
  {
    if |c.rest| < c.required then (c, false)
    else
      var taken, d := c.rest[..c.required], c.(rest := c.rest[c.required..]);
      match c.state
      case GreetingHeader =>
        if taken[0] != 5 || taken[1] == 0 then Failing(d)
        else (d.(state := GreetingMethods, required := Value(taken[1])), true)
      case GreetingMethods => Methods(e, d, taken)
      case RequestHeader => Header(d, taken)
      case RequestAddrV4 => Address(e, d, V4(taken[..4], taken[4..]))
      case RequestAddrV6 => Address(e, d, V6(taken[..16], taken[16..]))
      case RequestBind => BindPort(e, d, taken[c.required - 2..])
      case Response => Reply(e, c)
      case WaitConnect | WaitAccept | Success => (c, false)
      case Fail => (c.(required := 0), false)
  }

  predicate Suffix(r: seq<Byte>, s: seq<Byte>) {
    |r| <= |s| && r == s[|s| - |r|..]
  }

  lemma SuffixTrans(q: seq<Byte>, r: seq<Byte>, s: seq<Byte>)
    requires Suffix(q, r) && Suffix(r, s)
    ensures Suffix(q, s)
  {
  }

  function Rank(s: State): nat {
    match s
    case GreetingHeader => 5
    case GreetingMethods => 4
    case RequestHeader => 3
    case RequestAddrV4 | RequestAddrV6 | RequestBind => 2
    case Response => 1
    case WaitConnect | WaitAccept | Success | Fail => 0
  }

  /** A step keeps the byte counts right, and one that returns true moves on towards a final state. */
  lemma StepLaw(e: Env, c: Conf)
    requires Wf(c)
    ensures Wf(Step(e, c).0) && (Step(e, c).1 ==> Rank(Step(e, c).0.state) < Rank(c.state))
  {
    hide Step;
    hide Wf;
    StepWf(e, c);
    StepRank(e, c);
  }

  lemma StepRank(e: Env, c: Conf)
    requires Wf(c)
    ensures Step(e, c).1 ==> Rank(Step(e, c).0.state) < Rank(c.state)
  {
    hide Value;
    hide CreateResp;
  }

  lemma StepWf(e: Env, c: Conf)
    requires Wf(c)
    ensures Wf(Step(e, c).0)
  {
    hide Value;
    hide Methods;
    hide Header;
    hide Address;
    hide BindPort;
    hide Reply;
    if c.required <= |c.rest| {
      var taken, d := c.rest[..c.required], c.(rest := c.rest[c.required..]);
      match c.state
      case GreetingMethods => MethodsWf(e, d, taken);
      case RequestHeader => HeaderWf(d, taken);
      case RequestAddrV4 => AddressWf(e, d, V4(taken[..4], taken[4..]));
      case RequestAddrV6 => AddressWf(e, d, V6(taken[..16], taken[16..]));
      case RequestBind => BindWf(e, d, taken[c.required - 2..]);
      case Response => ReplyWf(e, c);
      case _ =>
    }
  }

  lemma MethodsWf(e: Env, c: Conf, methods: seq<Byte>)
    requires c.required < 256
    ensures Wf(Methods(e, c, methods).0)
  {
  }

  lemma HeaderWf(c: Conf, h: seq<Byte>)
    requires c.required < 256 && |h| == 4
    ensures Wf(Header(c, h).0)
  {
  }

  lemma AddressWf(e: Env, c: Conf, a: SockAddr)
    ensures Wf(Address(e, c, a).0)
  {
  }

  lemma BindWf(e: Env, c: Conf, port: seq<Byte>)
    ensures Wf(BindPort(e, c, port).0)
  {
  }

  lemma ReplyWf(e: Env, c: Conf)
    requires c.required < 256
    ensures Wf(Reply(e, c).0)
  {
    hide CreateResp;
  }

  lemma StepMoves(e: Env, c: Conf)
    requires Wf(c)
    ensures c.trace <= Step(e, c).0.trace && Suffix(Step(e, c).0.rest, c.rest)
  {
    hide Value;
    hide Wf;
    if c.required <= |c.rest| {
      assert Suffix(c.rest[c.required..], c.rest);
    }
  }

  /** Without enough bytes, or in a final state, nothing is consumed; a failed parser then stops asking for bytes. */
  lemma StepIdle(e: Env, c: Conf)
    requires Wf(c)
    ensures |c.rest| < c.required || c.state == Success ==> Step(e, c) == (c, false)
    ensures |c.rest| >= c.required && c.state == Fail ==> Step(e, c) == (c.(required := 0), false)
  {
  }

  /** A call returns true if and only if it has got further and no callback has to finish first. */
  lemma StepReturns(e: Env, c: Conf)
    requires Wf(c)
    ensures var (d, more) := Step(e, c);
            var pending := d.state == WaitAccept || (d.state == WaitConnect && d.trace != c.trace);
            more <==> d.state != c.state && d.state != Fail && !pending
  {
    hide Value;
    hide CreateResp;
    hide Address;
    hide BindPort;
    if c.required <= |c.rest| {
      var taken, d := c.rest[..c.required], c.(rest := c.rest[c.required..]);
      match c.state
      case RequestAddrV4 => AddressReturns(e, d, V4(taken[..4], taken[4..]));
      case RequestAddrV6 => AddressReturns(e, d, V6(taken[..16], taken[16..]));
      case RequestBind => BindReturns(e, d, taken[c.required - 2..]);
      case _ =>
    }
  }

  lemma AddressReturns(e: Env, c: Conf, a: SockAddr)
    ensures var (d, more) := Address(e, c, a);
            && (d.state == Response || d.state == WaitConnect || d.state == Fail)
            && (more <==> d.state == Response || (d.state == WaitConnect && d.trace == c.trace))
  {
  }

  lemma BindReturns(e: Env, c: Conf, port: seq<Byte>)
    ensures var (d, more) := BindPort(e, c, port); !more && (d.state == WaitAccept || d.state == Fail)
  {
  }

  /** A call that returned false is repeated in vain until more bytes arrive. */
  lemma StepStuck(e: Env, c: Conf)
    requires Wf(c) && !Step(e, c).1 && c.required <= |c.rest|
    ensures Rank(Step(e, c).0.state) == 0
  {
  }

  /** `Proceed` until the handshake has succeeded or a call returns false. */
  function Run(e: Env, c: Conf): Conf
    requires Wf(c)
    decreases Rank(c.state)
  {
    if c.state == Success then c
    else
      StepLaw(e, c);
      var (d, more) := Step(e, c);
      if more then Run(e, d) else d
  }

  /** More bytes have arrived. */
  function Feed(c: Conf, x: seq<Byte>): Conf {
    c.(rest := c.rest + x)
  }

  lemma RunUnfold(e: Env, c: Conf)
    requires Wf(c) && c.state != Success
    ensures Wf(Step(e, c).0)
    ensures Run(e, c) == if Step(e, c).1 then Run(e, Step(e, c).0) else Step(e, c).0
    ensures Step(e, c).1 ==> Rank(Step(e, c).0.state) < Rank(c.state)
  {
    StepLaw(e, c);
  }

  /** A run only extends the history and only consumes from the front. */
  lemma {:induction false} RunLaw(e: Env, c: Conf)
    requires Wf(c)
    ensures Wf(Run(e, c)) && c.trace <= Run(e, c).trace && Suffix(Run(e, c).rest, c.rest)
    decreases Rank(c.state)
  {
    if c.state != Success {
      var d := Step(e, c).0;
      StepMoves(e, c);
      RunUnfold(e, c);
      if Step(e, c).1 {
        RunLaw(e, d);
        SuffixTrans(Run(e, d).rest, d.rest, c.rest);
      }
    }
  }

  /** A finished, failed or waiting handshake takes no more bytes. */
  lemma RunIdle(e: Env, c: Conf)
    requires Wf(c) && Rank(c.state) == 0
    ensures Wf(Run(e, c)) && Same(Run(e, c), c)
  {
  }

  /** Bytes behind those a step needs do not influence it. */
  lemma StepFeed(e: Env, c: Conf, x: seq<Byte>)
    requires Wf(c) && c.required <= |c.rest|
    ensures Step(e, Feed(c, x)) == (Feed(Step(e, c).0, x), Step(e, c).1)
  {
    assert (c.rest + x)[..c.required] == c.rest[..c.required];
    assert (c.rest + x)[c.required..] == c.rest[c.required..] + x;
  }

  /** Equal but for the byte count a failed handshake still asks for. */
  predicate Same(c: Conf, d: Conf) {
    c.state == d.state && c.trace == d.trace && c.rest == d.rest && (c.state != Fail ==> c.required == d.required)
  }

  lemma RunSame(e: Env, c: Conf, d: Conf)
    requires Wf(c) && Wf(d) && Same(c, d)
    ensures Same(Run(e, c), Run(e, d))
  {
    if c.state != Fail {
      assert c == d;
    }
  }

  /** Running on the bytes at hand and again when more arrive is running once on all of them. */
  lemma {:induction false} RunFeed(e: Env, c: Conf, x: seq<Byte>)
    requires Wf(c)
    ensures Wf(Run(e, c)) && Same(Run(e, Feed(Run(e, c), x)), Run(e, Feed(c, x)))
    decreases Rank(c.state)
  {
    RunLaw(e, c);
    if c.state != Success {
      RunUnfold(e, c);
      if c.required <= |c.rest| {
        StepFeed(e, c, x);
        RunUnfold(e, Feed(c, x));
        var d := Step(e, c).0;
        if Step(e, c).1 {
          RunFeed(e, d, x);
        } else {
          StepStuck(e, c);
          RunIdle(e, Feed(d, x));
        }
      }
    }
  }

  function Concat(chunks: seq<seq<Byte>>): seq<Byte> {
    if chunks == [] then [] else chunks[0] + Concat(chunks[1..])
  }

  /** The handshake handler called once for each chunk. */
  function RunChunks(e: Env, c: Conf, chunks: seq<seq<Byte>>): Conf
    requires Wf(c)
    decreases |chunks|
  {
    if chunks == [] then c
    else
      RunLaw(e, Feed(c, chunks[0]));
      RunChunks(e, Run(e, Feed(c, chunks[0])), chunks[1..])
  }

  /**
   However a client's byte stream is cut into reads, the handshake ends in the same state,
   after the same callbacks with the same arguments, with the same bytes left unconsumed.
   */
  lemma {:induction false} ChunkingInvariance(e: Env, c: Conf, chunks: seq<seq<Byte>>)
    requires Wf(c) && chunks != []
    ensures Same(RunChunks(e, c, chunks), Run(e, Feed(c, Concat(chunks))))
    decreases |chunks|
  {
    hide Step;
    var x := chunks[0];
    var d := Run(e, Feed(c, x));
    RunLaw(e, Feed(c, x));
    if |chunks| == 1 {
      assert Concat(chunks) == x;
    } else {
      ChunkingInvariance(e, d, chunks[1..]);
      RunFeed(e, Feed(c, x), Concat(chunks[1..]));
      assert Feed(Feed(c, x), Concat(chunks[1..])) == Feed(c, Concat(chunks));
    }
  }

  // ------------------------------------------------- the byte count after a failure

  /** As long as the handshake has not failed, running in two parts is exactly running once. */
  lemma {:induction false} RunFeedExact(e: Env, c: Conf, x: seq<Byte>)
    requires Wf(c) && Run(e, c).state != Fail
    ensures Wf(Run(e, c)) && Run(e, Feed(Run(e, c), x)) == Run(e, Feed(c, x))
    decreases Rank(c.state)
  {
    hide Step;
    StepIdle(e, c);
    RunLaw(e, c);
    if c.state != Success {
      RunUnfold(e, c);
      if c.required <= |c.rest| {
        StepFeed(e, c, x);
        RunUnfold(e, Feed(c, x));
        var d := Step(e, c).0;
        if Step(e, c).1 {
          RunFeedExact(e, d, x);
        } else {
          StepStuck(e, c);
          RunWaits(e, Feed(d, x));
        }
      }
    }
  }

  lemma RunWaits(e: Env, c: Conf)
    requires Wf(c) && Rank(c.state) == 0 && c.state != Fail
    ensures Run(e, c) == c
  {
  }

  /** A call that returns true has not failed. */
  lemma StepGoesOn(e: Env, c: Conf)
    requires Wf(c) && Step(e, c).1
    ensures Step(e, c).0.state != Fail
  {
    hide Value;
    hide CreateResp;
  }

  /** Bytes behind those that made the handshake fail change neither the failure nor the count. */
  lemma {:induction false} FailFeed(e: Env, c: Conf, x: seq<Byte>)
    requires Wf(c) && c.state != Fail && Run(e, c).state == Fail
    ensures Run(e, Feed(c, x)) == Feed(Run(e, c), x)
    decreases Rank(c.state)
  {
    hide Step;
    RunUnfold(e, c);
    StepIdle(e, c);
    StepFeed(e, c, x);
    RunUnfold(e, Feed(c, x));
    if Step(e, c).1 {
      StepGoesOn(e, c);
      FailFeed(e, Step(e, c).0, x);
    }
  }

  /** A failed handshake that is called again drops the count as soon as so many bytes are there. */
  lemma RunFailed(e: Env, c: Conf)
    requires Wf(c) && c.state == Fail
    ensures Run(e, c) == c.(required := if |c.rest| < c.required then c.required else 0)
  {
  }

  lemma {:induction false} ConcatMore(a: seq<seq<Byte>>, x: seq<Byte>)
    ensures Concat(a + [x]) == Concat(a) + x
  {
    if a == [] {
      assert a + [x] == [x] && [x][1..] == [];
    } else {
      assert (a + [x])[1..] == a[1..] + [x];
      ConcatMore(a[1..], x);
    }
  }

  lemma {:induction false} RunChunksMore(e: Env, c: Conf, a: seq<seq<Byte>>, x: seq<Byte>)
    requires Wf(c)
    ensures Wf(RunChunks(e, c, a)) && RunChunks(e, c, a + [x]) == Run(e, Feed(RunChunks(e, c, a), x))
    decreases |a|
  {
    hide Step;
    if a == [] {
      assert a + [x] == [x] && [x][1..] == [];
      RunLaw(e, Feed(c, x));
    } else {
      RunLaw(e, Feed(c, a[0]));
      assert (a + [x])[1..] == a[1..] + [x];
      RunChunksMore(e, Run(e, Feed(c, a[0])), a[1..], x);
    }
  }

  /**
   The count after any cut: that of the whole run if the last read brought the failure, and
   otherwise dropped as soon as so many bytes lie behind the failure.
   */
  lemma {:induction false} CountAfter(e: Env, c: Conf, a: seq<seq<Byte>>, x: seq<Byte>)
    requires Wf(c) && c.state != Fail
    ensures var v, w := RunChunks(e, c, a + [x]), Run(e, Feed(c, Concat(a + [x])));
            if RunChunks(e, c, a).state != Fail then v == w
            else w.state == Fail && v.required == if |w.rest| < w.required then w.required else 0
    decreases |a|
  {
    hide Step;
    ConcatMore(a, x);
    RunChunksMore(e, c, a, x);
    var u, d := RunChunks(e, c, a), Feed(c, Concat(a));
    assert Feed(d, x) == Feed(c, Concat(a + [x]));
    if a == [] {
      assert d == c;
    } else {
      ChunkingInvariance(e, c, a);
      RunLaw(e, d);
      if u.state != Fail {
        RunFeedExact(e, d, x);
      } else {
        var b, y := a[..|a| - 1], a[|a| - 1];
        assert a == b + [y];
        CountAfter(e, c, b, y);
        FailFeed(e, d, x);
        RunFailed(e, Feed(u, x));
      }
    }
  }

  /**
   The count is the one of the whole stream read at once if and only if that does not fail,
   or leaves fewer bytes behind the failure than the count, or none is asked for, or the
   failure came with the last read.
   */
  lemma RequiredExact(e: Env, c: Conf, a: seq<seq<Byte>>, x: seq<Byte>)
    requires Wf(c) && c.state != Fail
    ensures var w := Run(e, Feed(c, Concat(a + [x])));
            var kept := w.required == 0 || |w.rest| < w.required || RunChunks(e, c, a).state != Fail;
            RunChunks(e, c, a + [x]).required == w.required <==> w.state != Fail || kept
  {
    hide Step;
    CountAfter(e, c, a, x);
  }

  /** So after a failure it can depend on how the stream was cut. */
  lemma RequiredAfterFailure(e: Env)
    ensures RunChunks(e, START, [[4, 0], [7, 7]]).required == 0
    ensures Run(e, Feed(START, Concat([[4, 0], [7, 7]]))).required == 2
  {
    var x: seq<Byte>, y: seq<Byte> := [4, 0], [7, 7];
    assert Concat([x, y]) == [4, 0, 7, 7] by {
      assert [x, y][1..] == [y] && [y][1..] == [];
      assert Concat([y]) == y && x + y == [4, 0, 7, 7];
    }
    var c := Feed(START, x);
    assert c.rest == x && x[2..] == [];
    assert Step(e, c) == Failing(c.(rest := []));
    assert [x, y][1..] == [y];
    var d := Feed(Run(e, c), y);
    assert Run(e, d).required == 0;
    assert RunChunks(e, START, [x, y]) == RunChunks(e, Run(e, c), [y]);
  }

  /**
   The application reports that the outgoing connection is up, or an inbound one accepted.
   The result is true, and the handshake counts as successful, exactly if one was awaited.
   */
  function ConnectionSucceed(e: Env, c: Conf): (r: (Conf, bool))
    ensures r.1 == (c.state == WaitConnect || c.state == WaitAccept)
    ensures r.0.state == if r.1 then Success else Fail
    ensures r.0.rest == c.rest && c.trace <= r.0.trace
    ensures r.1 ==> |r.0.trace| > 0 && r.0.trace[|r.0.trace| - 1].Respond?
    ensures r.1 && e.addressSet ==> |r.0.trace| > 1 && r.0.trace[|r.0.trace| - 2] == DestAddress(c.state == WaitAccept)
  {
    if c.state == WaitConnect || c.state == WaitAccept then
      var (resp, t) := CreateResp(e, c.trace, c.state == WaitAccept);
      (c.(trace := t + [Respond(resp)], state := Success), true)
    else (c.(state := Fail), false)
  }

  /** What the header describes: true exactly if a connection was awaited and the reply has been sent. */
  predicate Described(e: Env, c: Conf, r: bool) {
    r <==> (c.state == WaitConnect || c.state == WaitAccept) && e.status(ConnectionSucceed(e, c).0.trace) == OK
  }

  /** That is what it returns if and only if no connection was awaited or the reply gets through. */
  lemma SucceedsAsDescribed(e: Env, c: Conf)
    ensures var (resp, t) := CreateResp(e, c.trace, c.state == WaitAccept);
            var heard := e.status(t + [Respond(resp)]) == OK;
            Described(e, c, ConnectionSucceed(e, c).1) <==> !(c.state == WaitConnect || c.state == WaitAccept) || heard
  {
  }
}
