/**
 The handshake parser as the proxy runs it: an object with a state and a byte count that
 takes its input out of a scatter-gather buffer.  Every call refines the function on values.
 */
module Socks5Server {
  import opened Bytes
  import opened BlockPool
  import opened BufferLaws
  import opened ProxyBuffer
  import opened Socks5

  /** The decisions of one transition, on the bytes it has consumed. */
  method Transition(e: Env, s: State, n: nat, t: seq<Call>, taken: seq<Byte>, ghost rest: seq<Byte>)
    returns (s': State, n': nat, t': seq<Call>, more: bool)
    requires Wf(Conf(s, n, t, taken + rest)) && |taken| == n && s != Success && s != Fail
    ensures (Conf(s', n', t', rest), more) == Step(e, Conf(s, n, t, taken + rest))
  {
    assert (taken + rest)[..n] == taken && (taken + rest)[n..] == rest;
    s', n', t', more := s, n, t, true;
    match s {
      case GreetingHeader =>
        if taken[0] != 5 || taken[1] == 0 {
          s' := Fail;
        } else {
          n', s' := Value(taken[1]), GreetingMethods;
        }
      case GreetingMethods =>
        if 0 !in taken {
          s' := Fail;
        } else {
          t' := t + [Respond(GREETING_REPLY)];
          if e.status(t') != OK {
            s' := Fail;
          } else {
            s', n' := RequestHeader, 4;
          }
        }
      case RequestHeader =>
        s', n' := ReadHeader(taken);
      case RequestAddrV4 =>
        n' := 0;
        s', t', more := Dial(e, t, V4(taken[..4], taken[4..]));
      case RequestAddrV6 =>
        n' := 0;
        s', t', more := Dial(e, t, V6(taken[..16], taken[16..]));
      case RequestBind =>
        n', t' := 0, t + [Bind(taken[n - 2..])];
        if e.status(t') == Failed {
          s' := Fail;
        } else {
          var p := e.port(t');
          t' := t' + [Respond([5, 0, 0, 1, 0, 0, 0, 0, p.0, p.1])];
          s', more := if e.status(t') == Failed then Fail else WaitAccept, false;
        }
      case Response =>
        var (resp, u) := CreateResp(e, t, false);
        t' := u + [Respond(resp)];
        if e.status(t') != OK {
          s' := Fail;
        } else {
          s', n' := Success, 1;
        }
      case WaitConnect | WaitAccept =>
        assert taken + rest == rest;
        more := false;
    }
    more := more && s' != Fail;
  }

  /** Asks for a connection, if anyone can make it; false if it is under way. */
  method Dial(e: Env, t: seq<Call>, addr: SockAddr) returns (s': State, t': seq<Call>, more: bool)
    ensures forall c: Conf | c.trace == t ::
              Address(e, c, addr) == (c.(required := 0, state := s', trace := t'), more && s' != Fail)
  {
    if !e.connectSet {
      return WaitConnect, t, true;
    }
    t' := t + [Connect(addr)];
    var ret := e.status(t');
    if ret == OK {
      return Response, t', true;
    }
    if ret == InProgress {
      return WaitConnect, t', false;
    }
    return Fail, t', true;
  }

  /** The request header: which command, and how long an address follows. */
  method ReadHeader(h: seq<Byte>) returns (s': State, n': nat)
    requires |h| == 4
    ensures forall c: Conf | c.required == 4 :: Header(c, h) == (c.(state := s', required := n'), s' != Fail)
  {
    s', n' := Fail, 4;
    if h[0] != 5 || h[2] != 0 {
      return;
    }
    if h[1] == 1 {
      if h[3] == 1 {
        s', n' := RequestAddrV4, 6;
      } else if h[3] == 4 {
        s', n' := RequestAddrV6, 18;
      }
    } else if h[1] == 2 {
      if h[3] == 1 {
        s', n' := RequestBind, 6;
      } else if h[3] == 4 {
        s', n' := RequestBind, 18;
      }
    }
  }

  class Socks5State {
    const env: Env
    var state: State
    var required: nat
    /** The callbacks made so far. */
    var trace: seq<Call>

    constructor (env: Env)
      ensures this.env == env && state == START.state && required == START.required && trace == START.trace
    {
      this.env := env;
      state, required, trace := GreetingHeader, 2, [];
    }

    /** Parser and buffer together are a configuration. */
    ghost function Config(b: Buffer): Conf
      reads this, b, b.pool
    {
      Conf(state, required, trace, b.Contents())
    }

    predicate InsufficientBuffer(b: Buffer)
      reads this, b
    {
      b.f.dataSize < required
    }

    /** A handshake step can run: the buffer is in order and nobody else is consuming it. */
    ghost predicate Ready(b: Buffer)
      reads this, b, b.pool
    {
      b.Valid() && !b.f.peeked && Wf(Config(b))
    }

    /** Takes the bytes the current state needs. */
    method Consume(b: Buffer) returns (taken: seq<Byte>)
      requires Ready(b) && required <= |b.Contents()|
      modifies b, b.pool
      ensures b.Valid() && !b.f.peeked && b.f.reserved == old(b.f.reserved) && b.spans == old(b.spans) && b.Local()
      ensures |taken| == required && taken + b.Contents() == old(b.Contents())
    {
      hide Sound;
      hide Confined;
      ghost var c := b.Contents();
      assert c == c[..required] + c[required..];
      if state == RequestAddrV4 || state == RequestAddrV6 || state == RequestBind {
        var x, y := b.CopyOutTwo(required - 2, 2);
        taken := x + y;
      } else {
        taken := b.CopyOut(required);
      }
    }

    /** A transition out of a state that is not final, on bytes that are there. */
    method Advance(b: Buffer) returns (more: bool)
      requires Ready(b) && required <= |b.Contents()| && state != Success && state != Fail
      modifies this, b, b.pool
      ensures b.Valid() && !b.f.peeked && b.f.reserved == old(b.f.reserved) && b.spans == old(b.spans) && b.Local()
      ensures (Config(b), more) == Step(env, old(Config(b)))
    {
      hide Sound;
      hide Confined;
      hide Step;
      var taken := Consume(b);
      var s, n, t;
      s, n, t, more := Transition(env, state, required, trace, taken, b.Contents());
      state, required, trace := s, n, t;
    }

    /** One transition, if the bytes for it are there. */
    method Proceed(b: Buffer) returns (more: bool)
      requires Ready(b)
      modifies this, b, b.pool
      ensures b.Valid() && !b.f.peeked && b.f.reserved == old(b.f.reserved) && b.spans == old(b.spans) && b.Local()
      ensures (Config(b), more) == Step(env, old(Config(b)))
    {
      assert b.f.dataSize == |b.Contents()|;
      assert Confined(b.pool.nodes, b.pool.mem, b.pool.nodes, b.pool.mem, b.Reach(), b.Reach());
      hide Sound;
      hide Confined;
      hide Step;
      StepIdle(env, Config(b));
      if InsufficientBuffer(b) {
        return false;
      }
      if state == Success {
        return false;
      }
      if state == Fail {
        required := 0;
        return false;
      }
      more := Advance(b);
    }

    /** `Proceed` until the handshake has succeeded or a call returns false. */
    method Handshake(b: Buffer)
      requires Ready(b)
      modifies this, b, b.pool
      ensures b.Valid() && !b.f.peeked && b.f.reserved == old(b.f.reserved) && b.spans == old(b.spans) && b.Local()
      ensures Config(b) == Run(env, old(Config(b)))
    {
      var more := true;
      while state != Success && more
        invariant b.Valid() && !b.f.peeked && b.f.reserved == old(b.f.reserved) && b.spans == old(b.spans) && b.Local()
        invariant Wf(Config(b)) && (if more then Run(env, Config(b)) else Config(b)) == Run(env, old(Config(b)))
        decreases if more then 1 + Rank(state) else 0
      {
        ghost var n1, m1, o1 := b.pool.nodes, b.pool.mem, b.Reach();
        RunUnfold(env, Config(b));
        more := Proceed(b);
        ConfinedTrans(old(b.pool.nodes), old(b.pool.mem), n1, m1, b.pool.nodes, b.pool.mem, old(b.Reach()), o1,
                      b.Reach());
      }
    }

    /** The connection the handshake waited for is there. */
    method ConnectionSucceed() returns (r: bool)
      modifies this
      ensures forall x ::
                (Conf(state, required, trace, x), r)
                  == Socks5.ConnectionSucceed(env, old(Conf(state, required, trace, x)))
    {
      if state != WaitConnect && state != WaitAccept {
        state := Fail;
        return false;
      }
      var (resp, t) := CreateResp(env, trace, state == WaitAccept);
      trace := t + [Respond(resp)];
      var ret := env.status(trace);
      if ret != OK {
        state := Fail;
      }
      state := Success;
      r := true;
    }
  }
}
