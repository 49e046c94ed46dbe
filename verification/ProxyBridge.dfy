/**
 The bridge object: two scatter-gather buffers, on one freelist or on two, the handshake
 parser, the flags of the two directions.  Its handlers take exactly the steps of the session
 machine, so in every run no buffer is used out of turn and all theorems about sessions hold
 of it, with the bytes the system really finds in the memory handed to it.
 */
module ProxyBridge {
  import opened Bytes
  import opened BlockChain
  import opened BlockPool
  import opened BufferLaws
  import opened ProxyBuffer
  import opened Socks5
  import opened Socks5Server
  import opened Forwarding

  // ------------------------------------------------------------------- two buffers

  /** Two buffers in order; if they share a freelist, they share no block. */
  ghost predicate Pair(a: Buffer, b: Buffer)
    reads a, b, a.pool, b.pool
  {
    && a != b && a.pool.cap == b.pool.cap && a.Valid() && b.Valid()
    && (a.pool == b.pool ==> Addrs(a.bs) !! Addrs(b.bs))
  }

  lemma CapPositive(a: Buffer)
    requires a.Valid()
    ensures a.pool.cap > 0
  {
  }

  lemma SizeLaw(a: Buffer)
    requires a.Valid()
    ensures a.f.dataSize == |a.Contents()|
  {
  }

  lemma ApartReach(bs: seq<Block>, free: seq<Addr>)
    requires Apart(bs, free)
    ensures Addrs(bs) !! Members(free)
  {
    forall x | x in Addrs(bs)
      ensures x !in Members(free)
    {
      var i :| 0 <= i < |bs| && bs[i].addr == x;
      NotFree(bs, free, i);
    }
  }

  /**
   An operation on one buffer leaves the other one as it was; the parameters are the first
   one's pool and chain before it.
   */
  lemma OtherKept(a: Buffer, b: Buffer, h: Head, nodes: Nodes, mem: Mem, free: seq<Addr>, bs: seq<Block>)
    requires a != b && a.pool.cap == b.pool.cap && a.Valid() && (b.f.peeked ==> Shows(b.shown, b.bs, b.end))
    requires if a.pool == b.pool then Sound(b.f, h, nodes, mem, b.bs, b.end, b.spans, free, b.pool.cap) else b.Valid()
    requires a.pool == b.pool ==> Addrs(b.bs) !! Addrs(bs)
    requires Confined(nodes, mem, a.pool.nodes, a.pool.mem, Held(bs, free), a.Reach())
    ensures Pair(a, b)
    ensures a.pool == b.pool ==> b.Contents() == Data(b.bs, mem) && b.Spare() == Free(b.bs, mem)
  {
    hide Confined;
    hide Shows;
    if a.pool == b.pool {
      SoundApart(b.f, h, nodes, mem, b.bs, b.end, b.spans, free, b.pool.cap);
      Undisturbed(b.f, h, nodes, mem, b.bs, b.end, b.spans, free, b.pool.cap,
                  b.pool.h, b.pool.nodes, b.pool.mem, b.pool.free, Held(bs, free), a.Reach());
    }
  }

  lemma SoundApart(f: Fields, h: Head, nodes: Nodes, mem: Mem, bs: seq<Block>, end: nat, spans: seq<Span>,
                   free: seq<Addr>, cap: nat)
    requires Sound(f, h, nodes, mem, bs, end, spans, free, cap)
    ensures Addrs(bs) !! Members(free)
  {
    ApartReach(bs, free);
  }

  // ------------------------------------------------------------------ one direction

  /** The four flags of a direction. */
  datatype Flags = Flags(reading: bool, readable: bool, writing: bool, writable: bool)

  /** Flags and buffer show the channel: an outstanding read or write is an open reservation or peek. */
  ghost predicate Tied(c: Channel, fl: Flags, b: Buffer)
    reads b, b.pool
  {
    && fl == Flags(c.reading, c.readable, c.writing, c.writable)
    && b.f.reserved == c.reading && b.f.peeked == c.writing
    && b.Contents() == c.data
    && c.span == (if c.reading then Total(b.spans) else 0)
    && c.offer == (if c.writing then Total(b.shown) else 0)
  }

  /** A direction with the memory handed to its outstanding read and write, if any. */
  ghost predicate Lane(c: Channel, fl: Flags, spans: seq<Span>, out: seq<Span>, b: Buffer)
    reads b, b.pool
  {
    && Tied(c, fl, b)
    && (c.reading ==> spans == b.spans && spans != [])
    && (c.writing ==> out == b.shown)
  }

  /** The other direction is as it was. */
  twostate predicate Beside(b: Buffer)
    reads b, b.pool
  {
    b.f == old(b.f) && b.spans == old(b.spans) && b.shown == old(b.shown) && b.Contents() == old(b.Contents())
  }

  /** Reserves and starts a read if one is due. */
  method StartRead(a: Buffer, o: Buffer, fl: Flags, spans: seq<Span>, ghost out: seq<Span>, ghost c: Channel)
    returns (fl': Flags, spans': seq<Span>, ghost total: nat)
    requires Pair(a, o) && Lane(c, fl, spans, out, a)
    modifies a, a.pool
    ensures Pair(a, o) && Beside(o) && Granted(total, READ_SIZE, a.pool.cap)
    ensures Lane(PumpRead(c, total), fl', spans', out, a)
  {
    fl', spans', total := fl, spans, READ_SIZE;
    if !fl.reading && fl.readable && fl.writable && a.f.dataSize < MAX_BUFFER {
      var n;
      ghost var h, nodes, mem, free, bs := a.pool.h, a.pool.nodes, a.pool.mem, a.pool.free, a.bs;
      spans', n := a.ReserveAtLeast(READ_SIZE);
      total := n;
      OtherKept(a, o, h, nodes, mem, free, bs);
      fl' := fl.(reading := true);
    }
  }

  /** Peeks and starts a write if one is due. */
  method StartWrite(a: Buffer, o: Buffer, fl: Flags, ghost spans: seq<Span>, out: seq<Span>, ghost c: Channel)
    returns (fl': Flags, out': seq<Span>)
    requires Pair(a, o) && Lane(c, fl, spans, out, a)
    modifies a`f, a`shown
    ensures Pair(a, o) && Beside(o) && Lane(PumpWrite(c), fl', spans, out', a)
  {
    fl', out' := fl, out;
    if !fl.writing && fl.writable && a.f.dataSize > 0 {
      out' := a.Peek();
      fl' := fl.(writing := true);
    }
  }

  /** A read completes: `bytes` arrived in the reserved spans. */
  method FinishRead(a: Buffer, o: Buffer, fl: Flags, spans: seq<Span>, ghost out: seq<Span>,
                    bytes: seq<Byte>, failed: bool, ghost c: Channel)
    returns (fl': Flags, shut: bool)
    requires Pair(a, o) && Lane(c, fl, spans, out, a) && c.reading && |bytes| <= c.span
    modifies a, a.pool
    ensures Pair(a, o) && Beside(o) && Lane(ReadDone(c, bytes, failed), fl', spans, out, a)
    ensures ReadDone(c, bytes, failed).shut == (c.shut || shut)
    ensures shut <==> failed && c.data + bytes == []
  {
    hide Sound;
    hide Shows;
    hide Confined;
    ghost var h, nodes, mem, free, bs := a.pool.h, a.pool.nodes, a.pool.mem, a.pool.free, a.bs;
    ReservedHead(a.f, h, nodes, mem, bs, a.end, a.spans, free, a.pool.cap);
    a.Receive(bytes, spans);
    SizeLaw(a);
    OtherKept(a, o, h, nodes, mem, free, bs);
    fl', shut := fl.(reading := false), false;
    if failed {
      fl' := fl'.(readable := false);
      if a.f.dataSize == 0 {
        shut := true;
      }
    }
  }

  /** What the system takes from the memory handed to a write. */
  method TakeOut(a: Buffer, out: seq<Span>, n: nat) returns (wire: seq<Byte>)
    requires a.Valid() && a.f.peeked && out == a.shown && n <= Total(out)
    ensures wire == Prefix(Gathered(out, a.pool.mem, |out|), n) && n <= |a.Contents()| && wire == a.Contents()[..n]
  {
    hide Sound;
    hide Shows;
    hide Live;
    a.PeekedFirst();
    wire := a.Gather(out, n);
  }

  /**
   A write completes: the system has put the first `n` bytes it found in the memory handed to
   it on the `wire`.
   */
  method FinishWrite(a: Buffer, o: Buffer, fl: Flags, ghost spans: seq<Span>, out: seq<Span>,
                     n: nat, failed: bool, ghost c: Channel)
    returns (fl': Flags, shut: bool, wire: seq<Byte>)
    requires Pair(a, o) && Lane(c, fl, spans, out, a) && c.writing && n <= c.offer <= |c.data|
    modifies a, a.pool
    ensures Pair(a, o) && Beside(o) && Lane(WriteDone(c, n, failed), fl', spans, out, a)
    ensures WriteDone(c, n, failed).shut == (c.shut || shut)
    ensures shut <==> !c.readable && n == |c.data|
    ensures wire == old(Prefix(Gathered(out, a.pool.mem, |out|), n)) && wire == c.data[..n]
  {
    hide Sound;
    hide Shows;
    hide Confined;
    hide Prefix;
    ghost var h, nodes, mem, free, bs := a.pool.h, a.pool.nodes, a.pool.mem, a.pool.free, a.bs;
    wire := TakeOut(a, out, n);
    a.Drain(n);
    SizeLaw(a);
    OtherKept(a, o, h, nodes, mem, free, bs);
    fl', shut := fl.(writing := false), false;
    if failed {
      fl' := fl'.(writable := false);
    }
    if !fl'.readable && a.f.dataSize == 0 {
      fl', shut := fl'.(writable := false), true;
    }
  }

  lemma PumpsCommute(c: Channel)
    ensures forall n :: PumpRead(PumpWrite(c), n) == PumpWrite(PumpRead(c, n))
  {
  }

  /** Starts every read and write that is due. */
  method ForwardTraffic(up: Buffer, down: Buffer, uf: Flags, df: Flags, us: seq<Span>, ds: seq<Span>,
                        uo: seq<Span>, dq: seq<Span>, ghost cu: Channel, ghost cd: Channel)
    returns (uf': Flags, df': Flags, us': seq<Span>, ds': seq<Span>, uo': seq<Span>, dq': seq<Span>,
             ghost grants: (nat, nat))
    requires Pair(up, down) && Lane(cu, uf, us, uo, up) && Lane(cd, df, ds, dq, down)
    modifies up, down, up.pool, down.pool
    ensures Granted(grants.0, READ_SIZE, up.pool.cap) && Granted(grants.1, READ_SIZE, up.pool.cap)
    ensures Pair(up, down) && Lane(Pump(cu, grants.0), uf', us', uo', up)
    ensures Lane(Pump(cd, grants.1), df', ds', dq', down)
  {
    hide Sound;
    hide Shows;
    hide PumpRead;
    hide PumpWrite;
    ghost var g0, g1;
    uf', us', g0 := StartRead(up, down, uf, us, uo, cu);
    df', dq' := StartWrite(down, up, df, ds, dq, cd);
    df', ds', g1 := StartRead(down, up, df', ds, dq', PumpWrite(cd));
    uf', uo' := StartWrite(up, down, uf', us', uo, PumpRead(cu, g0));
    PumpsCommute(cd);
    grants := (g0, g1);
  }

  // -------------------------------------------------------------------- the handshake

  /** Asks for at least one more byte. */
  method AwaitInput(a: Buffer, o: Buffer) returns (spans: seq<Span>)
    requires Pair(a, o) && !a.f.reserved
    modifies a, a.pool
    ensures Pair(a, o) && Beside(o) && a.f.reserved && a.f.peeked == old(a.f.peeked)
    ensures a.Contents() == old(a.Contents())
    ensures spans == a.spans && spans != [] && Total(spans) <= a.pool.cap
  {
    var n;
    ghost var h, nodes, mem, free, bs := a.pool.h, a.pool.nodes, a.pool.mem, a.pool.free, a.bs;
    spans, n := a.ReserveAtLeast(1);
    OtherKept(a, o, h, nodes, mem, free, bs);
  }

  method TakeInput(a: Buffer, o: Buffer, spans: seq<Span>, bytes: seq<Byte>)
    requires Pair(a, o) && a.f.reserved && spans == a.spans && spans != [] && |bytes| <= Total(spans)
    modifies a, a.pool
    ensures Pair(a, o) && Beside(o) && !a.f.reserved && a.f.peeked == old(a.f.peeked)
    ensures a.Contents() == old(a.Contents()) + bytes
  {
    assert a.f.head != NULL;
    ghost var h, nodes, mem, free, bs := a.pool.h, a.pool.nodes, a.pool.mem, a.pool.free, a.bs;
    a.Receive(bytes, spans);
    OtherKept(a, o, h, nodes, mem, free, bs);
  }

  method ParseInput(socks: Socks5State, a: Buffer, o: Buffer)
    requires Pair(a, o) && socks.Ready(a)
    modifies socks, a, a.pool
    ensures Pair(a, o) && Beside(o) && !a.f.peeked && a.f.reserved == old(a.f.reserved)
    ensures socks.Config(a) == Run(socks.env, old(socks.Config(a)))
  {
    ghost var h, nodes, mem, free, bs := a.pool.h, a.pool.nodes, a.pool.mem, a.pool.free, a.bs;
    socks.Handshake(a);
    OtherKept(a, o, h, nodes, mem, free, bs);
  }

  /** Bytes for the handshake arrive: the parser runs, and another read starts if it lacks bytes. */
  method OnHandshakeRead(socks: Socks5State, up: Buffer, down: Buffer, spans: seq<Span>, bytes: seq<Byte>, failed: bool)
    returns (spans': seq<Span>, again: bool)
    requires Pair(up, down) && up.f.reserved && !up.f.peeked && Wf(socks.Config(up))
    requires spans == up.spans && spans != [] && |bytes| <= Total(spans)
    modifies socks, up, up.pool
    ensures Pair(up, down) && Beside(down) && !up.f.peeked && up.f.reserved == again
    ensures again ==> spans' == up.spans && spans' != [] && Total(spans') <= up.pool.cap
    ensures var c := Feed(old(socks.Config(up)), bytes);
            && socks.Config(up) == (if failed then c else Run(socks.env, c))
            && again == (!failed && |up.Contents()| < socks.required)
  {
    TakeInput(up, down, spans, bytes);
    spans', again := [], false;
    if !failed {
      ParseInput(socks, up, down);
      if socks.InsufficientBuffer(up) {
        spans' := AwaitInput(up, down);
        again := true;
      }
    }
  }

  // -------------------------------------------------------------------- the handlers

  /** A read from the client completes, and what has become due is started. */
  method OnClientRead(up: Buffer, down: Buffer, uf: Flags, df: Flags,
                      us: seq<Span>, ds: seq<Span>, uo: seq<Span>, dq: seq<Span>,
                      bytes: seq<Byte>, failed: bool, ghost cu: Channel, ghost cd: Channel)
    returns (uf': Flags, df': Flags, us': seq<Span>, ds': seq<Span>, uo': seq<Span>, dq': seq<Span>,
             shut: bool, ghost grants: (nat, nat))
    requires Pair(up, down) && Lane(cu, uf, us, uo, up) && Lane(cd, df, ds, dq, down) && cu.reading
    requires |bytes| <= cu.span
    modifies up, down, up.pool, down.pool
    ensures Granted(grants.0, READ_SIZE, up.pool.cap) && Granted(grants.1, READ_SIZE, up.pool.cap)
    ensures Pair(up, down) && Lane(Pump(ReadDone(cu, bytes, failed), grants.0), uf', us', uo', up)
    ensures Lane(Pump(cd, grants.1), df', ds', dq', down)
    ensures ReadDone(cu, bytes, failed).shut == (cu.shut || shut)
  {
    hide Sound;
    hide Shows;
    hide Pump;
    hide ReadDone;
    var fl;
    fl, shut := FinishRead(up, down, uf, us, uo, bytes, failed, cu);
    uf', df', us', ds', uo', dq', grants :=
      ForwardTraffic(up, down, fl, df, us, ds, uo, dq, ReadDone(cu, bytes, failed), cd);
  }

  /** A write to the destination completes. */
  method OnDestWrite(up: Buffer, down: Buffer, uf: Flags, df: Flags,
                     us: seq<Span>, ds: seq<Span>, uo: seq<Span>, dq: seq<Span>,
                     n: nat, failed: bool, ghost cu: Channel, ghost cd: Channel)
    returns (uf': Flags, df': Flags, us': seq<Span>, ds': seq<Span>, uo': seq<Span>, dq': seq<Span>,
             shut: bool, wire: seq<Byte>, ghost grants: (nat, nat))
    requires Pair(up, down) && Lane(cu, uf, us, uo, up) && Lane(cd, df, ds, dq, down) && cu.writing
    requires n <= cu.offer <= |cu.data|
    modifies up, down, up.pool, down.pool
    ensures Granted(grants.0, READ_SIZE, up.pool.cap) && Granted(grants.1, READ_SIZE, up.pool.cap)
    ensures Pair(up, down) && Lane(Pump(WriteDone(cu, n, failed), grants.0), uf', us', uo', up)
    ensures Lane(Pump(cd, grants.1), df', ds', dq', down)
    ensures WriteDone(cu, n, failed).shut == (cu.shut || shut)
    ensures wire == cu.data[..n] && wire == old(Prefix(Gathered(uo, up.pool.mem, |uo|), n))
  {
    hide Sound;
    hide Shows;
    hide Pump;
    hide WriteDone;
    var fl;
    fl, shut, wire := FinishWrite(up, down, uf, us, uo, n, failed, cu);
    uf', df', us', ds', uo', dq', grants :=
      ForwardTraffic(up, down, fl, df, us, ds, uo, dq, WriteDone(cu, n, failed), cd);
  }

  /** A read from the destination completes. */
  method OnDestRead(up: Buffer, down: Buffer, uf: Flags, df: Flags,
                    us: seq<Span>, ds: seq<Span>, uo: seq<Span>, dq: seq<Span>,
                    bytes: seq<Byte>, failed: bool, ghost cu: Channel, ghost cd: Channel)
    returns (uf': Flags, df': Flags, us': seq<Span>, ds': seq<Span>, uo': seq<Span>, dq': seq<Span>,
             shut: bool, ghost grants: (nat, nat))
    requires Pair(up, down) && Lane(cu, uf, us, uo, up) && Lane(cd, df, ds, dq, down) && cd.reading
    requires |bytes| <= cd.span
    modifies up, down, up.pool, down.pool
    ensures Granted(grants.0, READ_SIZE, up.pool.cap) && Granted(grants.1, READ_SIZE, up.pool.cap)
    ensures Pair(up, down) && Lane(Pump(cu, grants.0), uf', us', uo', up)
    ensures Lane(Pump(ReadDone(cd, bytes, failed), grants.1), df', ds', dq', down)
    ensures ReadDone(cd, bytes, failed).shut == (cd.shut || shut)
  {
    hide Sound;
    hide Shows;
    hide Pump;
    hide ReadDone;
    var fl;
    fl, shut := FinishRead(down, up, df, ds, dq, bytes, failed, cd);
    uf', df', us', ds', uo', dq', grants :=
      ForwardTraffic(up, down, uf, fl, us, ds, uo, dq, cu, ReadDone(cd, bytes, failed));
  }

  /** A write to the client completes. */
  method OnClientWrite(up: Buffer, down: Buffer, uf: Flags, df: Flags,
                       us: seq<Span>, ds: seq<Span>, uo: seq<Span>, dq: seq<Span>,
                       n: nat, failed: bool, ghost cu: Channel, ghost cd: Channel)
    returns (uf': Flags, df': Flags, us': seq<Span>, ds': seq<Span>, uo': seq<Span>, dq': seq<Span>,
             shut: bool, wire: seq<Byte>, ghost grants: (nat, nat))
    requires Pair(up, down) && Lane(cu, uf, us, uo, up) && Lane(cd, df, ds, dq, down) && cd.writing
    requires n <= cd.offer <= |cd.data|
    modifies up, down, up.pool, down.pool
    ensures Granted(grants.0, READ_SIZE, up.pool.cap) && Granted(grants.1, READ_SIZE, up.pool.cap)
    ensures Pair(up, down) && Lane(Pump(cu, grants.0), uf', us', uo', up)
    ensures Lane(Pump(WriteDone(cd, n, failed), grants.1), df', ds', dq', down)
    ensures WriteDone(cd, n, failed).shut == (cd.shut || shut)
    ensures wire == cd.data[..n] && wire == old(Prefix(Gathered(dq, down.pool.mem, |dq|), n))
  {
    hide Sound;
    hide Shows;
    hide Pump;
    hide WriteDone;
    var fl;
    fl, shut, wire := FinishWrite(down, up, df, ds, dq, n, failed, cd);
    uf', df', us', ds', uo', dq', grants :=
      ForwardTraffic(up, down, uf, fl, us, ds, uo, dq, cu, WriteDone(cd, n, failed));
  }

  // ------------------------------------------------------------------------ the class

  /** The sending sides and the receiving sides that have been shut down. */
  datatype Sockets = Sockets(destShut: bool, clientShut: bool, clientDeaf: bool, destDeaf: bool)

  class ProxyBridge {
    const up: Buffer
    const down: Buffer
    const socks: Socks5State
    var upFlags: Flags
    var downFlags: Flags
    /** The memory handed to the outstanding reads from the client and from the destination ... */
    var clientSpans: seq<Span>
    var destSpans: seq<Span>
    /** ... and to the outstanding writes to the destination and to the client. */
    var destOut: seq<Span>
    var clientOut: seq<Span>
    /** The bytes the system has put on the wire. */
    var toDest: seq<Byte>
    var toClient: seq<Byte>
    /** Which sides of the sockets have been shut down. */
    var sockets: Sockets
    /** The session this object represents. */
    ghost var s: Session

    ghost predicate Valid()
      reads this, up, down, up.pool, down.pool, socks
    {
      && Pair(up, down)
      && Inv(socks.env, s, up.pool.cap)
      && sockets == Sockets(s.up.shut, s.down.shut, s.up.deaf, s.down.deaf)
      && toDest == s.up.sent && toClient == s.down.sent
      && (if s.forwarding then InLanes() else Parsing())
    }

    ghost predicate InLanes()
      reads this, up, down, up.pool, down.pool
    {
      Lane(s.up, upFlags, clientSpans, destOut, up) && Lane(s.down, downFlags, destSpans, clientOut, down)
    }

    /** The upstream buffer is the parser's input; nothing has been forwarded. */
    ghost predicate Parsing()
      reads this, up, down, up.pool, down.pool, socks
    {
      && s.conf == socks.Config(up)
      && up.f.reserved == s.handshaking && !up.f.peeked
      && (s.handshaking ==> clientSpans == up.spans && clientSpans != [] && Total(clientSpans) <= up.pool.cap)
      && s.up == s.down == Open([]) && upFlags == Flags(false, true, false, true) && Tied(s.down, downFlags, down)
    }

    method Update(uf: Flags, df: Flags, us: seq<Span>, ds: seq<Span>, uo: seq<Span>, dq: seq<Span>,
                  toDest: seq<Byte>, toClient: seq<Byte>, sockets: Sockets, ghost s: Session)
      modifies this
      ensures upFlags == uf && downFlags == df && clientSpans == us && destSpans == ds && destOut == uo
      ensures clientOut == dq
      ensures this.toDest == toDest && this.toClient == toClient && this.sockets == sockets && this.s == s
    {
      upFlags, downFlags, clientSpans, destSpans, destOut, clientOut := uf, df, us, ds, uo, dq;
      this.toDest, this.toClient, this.sockets, this.s := toDest, toClient, sockets, s;
    }

    /** The two buffers may be given the same freelist, or one each. */
    constructor (upPool: Freelist, downPool: Freelist, env: Env)
      requires upPool.Valid() && downPool.Valid() && upPool.cap == downPool.cap
      ensures Valid() && s == FRESH.(handshaking := false) && socks.env == env
      ensures up.pool == upPool && down.pool == downPool && fresh(up) && fresh(down) && fresh(socks)
    {
      hide Sound;
      hide Shows;
      up := new Buffer(upPool);
      down := new Buffer(downPool);
      socks := new Socks5State(env);
      upFlags, downFlags := Flags(false, true, false, true), Flags(false, true, false, true);
      clientSpans, destSpans, destOut, clientOut, toDest, toClient := [], [], [], [], [], [];
      sockets := Sockets(false, false, false, false);
      s := FRESH.(handshaking := false);
      new;
      CapPositive(up);
    }

    /**
     What holds of the real buffers, flags and wires whenever the bridge forwards: no byte is
     lost or reordered on its way from one socket to the other, an operation is outstanding
     exactly if its buffer is in use, the memory handed to an outstanding write still holds the
     next bytes to be sent, the buffers stay bounded, a socket's sending side is shut down
     exactly when the other side has ended and all its bytes have been written, and a direction
     is given up only then or when its source has been told.
     */
    lemma Guarantees()
      requires Valid() && s.forwarding
      ensures toDest + up.Contents() == Run(socks.env, Feed(START, s.input)).rest + s.up.taken
      ensures toClient + down.Contents() == s.down.taken
      ensures upFlags.reading == up.f.reserved && upFlags.writing == up.f.peeked
      ensures downFlags.reading == down.f.reserved && downFlags.writing == down.f.peeked
      ensures upFlags.writing ==>
                && Live(destOut, up.pool.nodes, up.pool.mem)
                && Gathered(destOut, up.pool.mem, |destOut|) <= up.Contents()
      ensures downFlags.writing ==>
                && Live(clientOut, down.pool.nodes, down.pool.mem)
                && Gathered(clientOut, down.pool.mem, |clientOut|) <= down.Contents()
      ensures |up.Contents()| < MAX_BUFFER + READ_SIZE + up.pool.cap
      ensures |down.Contents()| < MAX_BUFFER + READ_SIZE + up.pool.cap
      ensures sockets.destShut <==> !upFlags.readable && up.Contents() == []
      ensures sockets.clientShut <==> !downFlags.readable && down.Contents() == []
      ensures sockets.destShut ==> !upFlags.reading && !upFlags.writing
      ensures sockets.clientShut ==> !downFlags.reading && !downFlags.writing
      ensures sockets.clientDeaf ==> !upFlags.writable
      ensures sockets.destDeaf ==> !downFlags.writable
      ensures !upFlags.writable ==> sockets.clientDeaf || sockets.destShut
      ensures !downFlags.writable ==> sockets.destDeaf || sockets.clientShut
    {
      hide Sound;
      hide Shows;
      hide Live;
      assert s.down.first + s.down.taken == s.down.taken;
      if up.f.peeked {
        up.PeekedFirst();
      }
      if down.f.peeked {
        down.PeekedFirst();
      }
    }

    /** Starts the handshake by reading the client. */
    method PerformSocks5Handshake()
      requires Valid() && s == FRESH.(handshaking := false)
      modifies this, up, up.pool
      ensures Valid() && s == FRESH
    {
      hide Sound;
      hide Shows;
      CapPositive(up);
      FreshSane(socks.env, up.pool.cap);
      var r := AwaitInput(up, down);
      Update(upFlags, downFlags, r, destSpans, destOut, clientOut, toDest, toClient, sockets, FRESH);
    }

    /** Bytes for the handshake arrive. */
    method Socks5HandshakeHandler(bytes: seq<Byte>, failed: bool)
      requires Valid() && s.handshaking && |bytes| <= Total(clientSpans)
      modifies this, up, up.pool, socks
      ensures Valid() && s == Handle(socks.env, old(s), HandshakeRead(bytes, failed), (0, 0), up.pool.cap)
    {
      hide Sound;
      hide Shows;
      CapPositive(up);
      HandshakeKeeps(socks.env, s, bytes, failed, (0, 0), up.pool.cap);
      ghost var t := Handle(socks.env, s, HandshakeRead(bytes, failed), (0, 0), up.pool.cap);
      var r, again := OnHandshakeRead(socks, up, down, clientSpans, bytes, failed);
      Update(upFlags, downFlags, r, destSpans, destOut, clientOut, toDest, toClient, sockets, t);
    }

    /** The buffers are ready to forward when the handshake is through with them. */
    lemma ToLanes()
      requires Valid() && !s.forwarding && !s.handshaking
      ensures Lane(Open(s.conf.rest), upFlags, clientSpans, destOut, up)
      ensures Lane(Open([]), downFlags, destSpans, clientOut, down)
    {
    }

    /** The connection to the destination is there, or has failed. */
    method ConnectHandler(failed: bool) returns (ghost grants: (nat, nat))
      requires Valid() && Enabled(s, Connected(failed), up.pool.cap)
      modifies this, up, down, up.pool, down.pool, socks
      ensures Valid() && Granted(grants.0, READ_SIZE, up.pool.cap) && Granted(grants.1, READ_SIZE, up.pool.cap)
      ensures s == Handle(socks.env, old(s), Connected(failed), grants, up.pool.cap)
    {
      hide Sound;
      hide Shows;
      hide Inv;
      hide Handle;
      hide Lane;
      hide Pump;
      hide CreateResp;
      CapPositive(up);
      InvWf(socks.env, s, up.pool.cap);
      grants := (READ_SIZE, READ_SIZE);
      if failed {
        ConnectFails(socks.env, s, grants, up.pool.cap);
        return;
      }
      ToLanes();
      var ok := socks.ConnectionSucceed();
      var uf, df, us, ds, uo, dq := upFlags, downFlags, clientSpans, destSpans, destOut, clientOut;
      if ok {
        uf, df, us, ds, uo, dq, grants :=
          ForwardTraffic(up, down, uf, df, us, ds, uo, dq, Open(s.conf.rest), Open([]));
      }
      ConnectedLaw(socks.env, s, grants, up.pool.cap);
      Update(uf, df, us, ds, uo, dq, toDest, toClient, sockets,
             Handle(socks.env, s, Connected(false), grants, up.pool.cap));
    }

    /** A read from the client completes. */
    method ClientReadHandler(bytes: seq<Byte>, failed: bool) returns (ghost grants: (nat, nat))
      requires Valid() && Enabled(s, ClientRead(bytes, failed), up.pool.cap)
      modifies this, up, down, up.pool, down.pool
      ensures Valid() && Granted(grants.0, READ_SIZE, up.pool.cap) && Granted(grants.1, READ_SIZE, up.pool.cap)
      ensures s == Handle(socks.env, old(s), ClientRead(bytes, failed), grants, up.pool.cap)
    {
      hide Sound;
      hide Shows;
      hide Inv;
      hide Handle;
      hide Lane;
      hide Pump;
      hide ReadDone;
      CapPositive(up);
      InvWf(socks.env, s, up.pool.cap);
      ReadSends(s.up, bytes, failed);
      var uf, df, us, ds, uo, dq, shut;
      uf, df, us, ds, uo, dq, shut, grants :=
        OnClientRead(up, down, upFlags, downFlags, clientSpans, destSpans, destOut, clientOut,
                     bytes, failed, s.up, s.down);
      ClientReadLaw(socks.env, s, bytes, failed, grants, up.pool.cap);
      ghost var t := Handle(socks.env, s, ClientRead(bytes, failed), grants, up.pool.cap);
      Update(uf, df, us, ds, uo, dq, toDest, toClient, sockets.(destShut := sockets.destShut || shut), t);
    }

    /** A write to the destination completes. */
    method DestWriteHandler(n: nat, failed: bool) returns (ghost grants: (nat, nat))
      requires Valid() && Enabled(s, DestWritten(n, failed), up.pool.cap)
      modifies this, up, down, up.pool, down.pool
      ensures Valid() && Granted(grants.0, READ_SIZE, up.pool.cap) && Granted(grants.1, READ_SIZE, up.pool.cap)
      ensures s == Handle(socks.env, old(s), DestWritten(n, failed), grants, up.pool.cap)
    {
      hide Sound;
      hide Shows;
      hide Inv;
      hide Handle;
      hide Lane;
      hide Pump;
      hide WriteDone;
      CapPositive(up);
      InvWf(socks.env, s, up.pool.cap);
      WriteSends(s.up, n, failed);
      var uf, df, us, ds, uo, dq, shut, wire;
      uf, df, us, ds, uo, dq, shut, wire, grants :=
        OnDestWrite(up, down, upFlags, downFlags, clientSpans, destSpans, destOut, clientOut,
                    n, failed, s.up, s.down);
      DestWrittenLaw(socks.env, s, n, failed, grants, up.pool.cap);
      ghost var t := Handle(socks.env, s, DestWritten(n, failed), grants, up.pool.cap);
      Update(uf, df, us, ds, uo, dq, toDest + wire, toClient,
             sockets.(destShut := sockets.destShut || shut, clientDeaf := sockets.clientDeaf || failed), t);
    }

    /** A read from the destination completes. */
    method DestReadHandler(bytes: seq<Byte>, failed: bool) returns (ghost grants: (nat, nat))
      requires Valid() && Enabled(s, DestRead(bytes, failed), up.pool.cap)
      modifies this, up, down, up.pool, down.pool
      ensures Valid() && Granted(grants.0, READ_SIZE, up.pool.cap) && Granted(grants.1, READ_SIZE, up.pool.cap)
      ensures s == Handle(socks.env, old(s), DestRead(bytes, failed), grants, up.pool.cap)
    {
      hide Sound;
      hide Shows;
      hide Inv;
      hide Handle;
      hide Lane;
      hide Pump;
      hide ReadDone;
      CapPositive(up);
      InvWf(socks.env, s, up.pool.cap);
      ReadSends(s.down, bytes, failed);
      var uf, df, us, ds, uo, dq, shut;
      uf, df, us, ds, uo, dq, shut, grants :=
        OnDestRead(up, down, upFlags, downFlags, clientSpans, destSpans, destOut, clientOut,
                   bytes, failed, s.up, s.down);
      DestReadLaw(socks.env, s, bytes, failed, grants, up.pool.cap);
      ghost var t := Handle(socks.env, s, DestRead(bytes, failed), grants, up.pool.cap);
      Update(uf, df, us, ds, uo, dq, toDest, toClient, sockets.(clientShut := sockets.clientShut || shut), t);
    }

    /** A write to the client completes. */
    method ClientWriteHandler(n: nat, failed: bool) returns (ghost grants: (nat, nat))
      requires Valid() && Enabled(s, ClientWritten(n, failed), up.pool.cap)
      modifies this, up, down, up.pool, down.pool
      ensures Valid() && Granted(grants.0, READ_SIZE, up.pool.cap) && Granted(grants.1, READ_SIZE, up.pool.cap)
      ensures s == Handle(socks.env, old(s), ClientWritten(n, failed), grants, up.pool.cap)
    {
      hide Sound;
      hide Shows;
      hide Inv;
      hide Handle;
      hide Lane;
      hide Pump;
      hide WriteDone;
      CapPositive(up);
      InvWf(socks.env, s, up.pool.cap);
      WriteSends(s.down, n, failed);
      var uf, df, us, ds, uo, dq, shut, wire;
      uf, df, us, ds, uo, dq, shut, wire, grants :=
        OnClientWrite(up, down, upFlags, downFlags, clientSpans, destSpans, destOut, clientOut,
                      n, failed, s.up, s.down);
      ClientWrittenLaw(socks.env, s, n, failed, grants, up.pool.cap);
      ghost var t := Handle(socks.env, s, ClientWritten(n, failed), grants, up.pool.cap);
      Update(uf, df, us, ds, uo, dq, toDest, toClient + wire,
             sockets.(clientShut := sockets.clientShut || shut, destDeaf := sockets.destDeaf || failed), t);
    }
  }
}
