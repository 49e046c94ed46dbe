/**
 The scatter-gather buffer of the proxy: a linked list of blocks used as a byte queue.

 `Contents` is the queue the block chain stands for and `Spare` the memory a producer
 may still write.  A reservation can stay open while data is drained: the spans handed
 out stay part of `Valid`, so every operation has to leave them where they are.

 The loops of the operations work on the buffer's fields and the pool as local variables;
 the methods of the class store the result back.
 */
module ProxyBuffer {
  import opened Bytes
  import opened BlockChain
  import opened BlockPool
  import opened BufferLaws

  // ---------------------------------------------------------------- appending a block

  /** Appends one block from the pool. */
  method AppendNewBlock(f: Fields, h: Head, nodes: Nodes, mem: Mem, cap: nat,
                        ghost bs: seq<Block>, ghost end: nat, ghost spans: seq<Span>, ghost free: seq<Addr>)
    returns (g: Fields, h': Head, nodes': Nodes, mem': Mem, ghost bs': seq<Block>)
    requires Sound(f, h, nodes, mem, bs, end, spans, free, cap)
    ensures Sound(g, h', nodes', mem', bs', end, spans, Popped(free), cap) && bs' == bs + [Block(g.tail, 0, 0)]
    ensures g.reserved == f.reserved && g.peeked == f.peeked
    ensures Data(bs', mem') == Data(bs, mem) && Free(bs, mem) <= Free(bs', mem')
    ensures SpaceStart(bs', end, cap) == SpaceStart(bs, end, cap)
    ensures Confined(nodes, mem, nodes', mem', Held(bs, free), Held(bs', Popped(free)))
  {
    hide Wired;
    hide PoolOk;
    hide Apart;
    hide Confined;
    hide WellFormed;
    hide SpansFit;
    hide LinkNodes;
    hide NewAddr;
    hide NewHead;
    hide NewMem;
    LinkLaw(f, h, nodes, mem, bs, free, cap);
    LinkShape(f, h, nodes, mem, bs, end, spans, free, cap);
    var a := NewAddr(h);
    g := f.(tail := a, blockCnt := f.blockCnt + 1);
    if f.head == NULL {
      g := g.(head := a, end := a);
    }
    h', nodes', mem' := NewHead(h, nodes), LinkNodes(f, h, nodes), NewMem(h, mem, cap);
    bs' := bs + [Block(a, 0, 0)];
  }

  // ------------------------------------------------------------------------ reserving

  /** The block a reservation goes on with, appended if the chain has run out of blocks. */
  method NextBlock(f: Fields, h: Head, nodes: Nodes, mem: Mem, cap: nat, block: Addr,
                   ghost bs: seq<Block>, ghost end: nat, ghost spans: seq<Span>, ghost free: seq<Addr>)
    returns (g: Fields, h': Head, nodes': Nodes, mem': Mem, b: Addr, ghost bs': seq<Block>, ghost free': seq<Addr>)
    requires Sound(f, h, nodes, mem, bs, end, spans, free, cap) && f.reserved
    requires block == NextSpace(bs, end, spans, cap) && Full(spans, bs, SpaceStart(bs, end, cap), cap)
    ensures Sound(g, h', nodes', mem', bs', end, spans, free', cap) && g.reserved && g.peeked == f.peeked
    ensures b != NULL && b == NextSpace(bs', end, spans, cap) && Full(spans, bs', SpaceStart(bs', end, cap), cap)
    ensures Grown(nodes, mem, bs, free, nodes', mem', bs', free')
  {
    g, h', nodes', mem', b, bs', free' := f, h, nodes, mem, block, bs, free;
    if block == NULL {
      g, h', nodes', mem', bs' := AppendNewBlock(f, h, nodes, mem, cap, bs, end, spans, free);
      b, free' := g.tail, Popped(free);
    }
  }

  /** The next block's space, or what is needed of it. */
  method TakeSpan(f: Fields, nodes: Nodes, cap: nat, b: Addr, n: nat, ghost bs: seq<Block>, ghost end: nat,
                  ghost spans: seq<Span>)
    returns (x: Span, next: Addr)
    requires Wired(nodes, f.head, f.tail, bs) && WellFormed(bs, end, cap)
    requires SpansFit(spans, bs, SpaceStart(bs, end, cap), cap)
    requires b != NULL && b == NextSpace(bs, end, spans, cap) && Full(spans, bs, SpaceStart(bs, end, cap), cap) && n > 0
    ensures SpansFit(spans + [x], bs, SpaceStart(bs, end, cap), cap)
    ensures next == NextSpace(bs, end, spans + [x], cap) && 0 < x.len <= Min(n, cap)
    ensures x.len < n || n >= cap ==> Full(spans + [x], bs, SpaceStart(bs, end, cap), cap)
  {
    hide Wired;
    hide WellFormed;
    hide SpansFit;
    hide Full;
    ghost var blk, x' := SpanLaw(spans, bs, end, cap, n);
    NodeAt(nodes, f.head, f.tail, bs, SpaceStart(bs, end, cap) + |spans|);
    var nd := nodes[b];
    var spaceLen := cap - nd.offset - nd.len;
    x, next := Span(b, nd.offset + nd.len, if n >= spaceLen then spaceLen else n), nd.next;
    assert x == x';
  }

  /** One turn of a reservation: the next block gives a span of up to `n` bytes. */
  method ReserveStep(f: Fields, h: Head, nodes: Nodes, mem: Mem, cap: nat, block: Addr, n: nat,
                     ghost bs: seq<Block>, ghost end: nat, ghost spans: seq<Span>, ghost free: seq<Addr>)
    returns (g: Fields, h': Head, nodes': Nodes, mem': Mem, x: Span, next: Addr, ghost bs': seq<Block>,
             ghost free': seq<Addr>)
    requires Sound(f, h, nodes, mem, bs, end, spans, free, cap) && f.reserved && n > 0
    requires block == NextSpace(bs, end, spans, cap) && Full(spans, bs, SpaceStart(bs, end, cap), cap)
    ensures Sound(g, h', nodes', mem', bs', end, spans + [x], free', cap) && g.reserved && g.peeked == f.peeked
    ensures next == NextSpace(bs', end, spans + [x], cap) && 0 < x.len <= Min(n, cap)
    ensures x.len < n || n >= cap ==> Full(spans + [x], bs', SpaceStart(bs', end, cap), cap)
    ensures Grown(nodes, mem, bs, free, nodes', mem', bs', free')
  {
    var b;
    g, h', nodes', mem', b, bs', free' := NextBlock(f, h, nodes, mem, cap, block, bs, end, spans, free);
    x, next := TakeSpan(g, nodes', cap, b, n, bs', end, spans);
  }

  /** Spans for exactly `size` bytes. */
  method ReserveLoop(f: Fields, h: Head, nodes: Nodes, mem: Mem, cap: nat, size: nat,
                     ghost bs: seq<Block>, ghost end: nat, ghost free: seq<Addr>)
    returns (g: Fields, h': Head, nodes': Nodes, mem': Mem, r: seq<Span>, ghost bs': seq<Block>, ghost free': seq<Addr>)
    requires Sound(f.(reserved := true), h, nodes, mem, bs, end, [], free, cap)
    ensures Sound(g, h', nodes', mem', bs', end, r, free', cap) && g.reserved && g.peeked == f.peeked
    ensures Total(r) == size && Grown(nodes, mem, bs, free, nodes', mem', bs', free')
    ensures size == 0 ==> g == f.(reserved := true)
  {
    hide Sound;
    hide Grown;
    hide Full;
    hide NextSpace;
    hide SpaceHead;
    ReserveStart(f, h, nodes, mem, bs, end, free, cap);
    GrownNone(nodes, mem, bs, free);
    var block := SpaceHead(f, nodes, cap);
    g, h', nodes', mem', r, bs', free' := f.(reserved := true), h, nodes, mem, [], bs, free;
    var remaining: nat := size;
    while remaining > 0
      invariant Sound(g, h', nodes', mem', bs', end, r, free', cap) && g.reserved && g.peeked == f.peeked
      invariant block == NextSpace(bs', end, r, cap) && remaining + Total(r) == size
      invariant remaining > 0 ==> Full(r, bs', SpaceStart(bs', end, cap), cap)
      invariant Grown(nodes, mem, bs, free, nodes', mem', bs', free')
      invariant remaining == size ==> g == f.(reserved := true)
      decreases remaining
    {
      ghost var n1, m1, b1, f1 := nodes', mem', bs', free';
      var x;
      g, h', nodes', mem', x, block, bs', free' :=
        ReserveStep(g, h', nodes', mem', cap, block, remaining, bs', end, r, free');
      GrownTrans(nodes, mem, bs, free, n1, m1, b1, f1, nodes', mem', bs', free');
      TotalAppend(r, x);
      r := r + [x];
      remaining := remaining - x.len;
    }
  }

  /** Spans of whole blocks for at least `size` bytes, overshooting by less than one block. */
  method ReserveAtLeastLoop(f: Fields, h: Head, nodes: Nodes, mem: Mem, cap: nat, size: nat,
                            ghost bs: seq<Block>, ghost end: nat, ghost free: seq<Addr>)
    returns (g: Fields, h': Head, nodes': Nodes, mem': Mem, r: seq<Span>, total: nat, ghost bs': seq<Block>,
             ghost free': seq<Addr>)
    requires Sound(f.(reserved := true), h, nodes, mem, bs, end, [], free, cap)
    ensures Sound(g, h', nodes', mem', bs', end, r, free', cap) && g.reserved && g.peeked == f.peeked
    ensures total == Total(r) && size <= total && (size > 0 ==> total < size + cap)
    ensures Grown(nodes, mem, bs, free, nodes', mem', bs', free')
  {
    hide Sound;
    hide Grown;
    hide Full;
    hide NextSpace;
    hide SpaceHead;
    ReserveStart(f, h, nodes, mem, bs, end, free, cap);
    GrownNone(nodes, mem, bs, free);
    var block := SpaceHead(f, nodes, cap);
    g, h', nodes', mem', r, bs', free' := f.(reserved := true), h, nodes, mem, [], bs, free;
    total := 0;
    while total < size
      invariant Sound(g, h', nodes', mem', bs', end, r, free', cap) && g.reserved && g.peeked == f.peeked
      invariant block == NextSpace(bs', end, r, cap) && total == Total(r) && (size > 0 ==> total < size + cap)
      invariant Full(r, bs', SpaceStart(bs', end, cap), cap)
      invariant Grown(nodes, mem, bs, free, nodes', mem', bs', free')
      decreases size - total
    {
      ghost var n1, m1, b1, f1 := nodes', mem', bs', free';
      var x;
      g, h', nodes', mem', x, block, bs', free' :=
        ReserveStep(g, h', nodes', mem', cap, block, cap, bs', end, r, free');
      GrownTrans(nodes, mem, bs, free, n1, m1, b1, f1, nodes', mem', bs', free');
      TotalAppend(r, x);
      r := r + [x];
      total := total + x.len;
    }
  }

  // ----------------------------------------------------------------------- committing

  /** One turn of a commit: the first block with space takes what it can of `n` bytes. */
  method CommitStep(f: Fields, h: Head, nodes: Nodes, mem: Mem, cap: nat, block: Addr, n: nat,
                    ghost bs: seq<Block>, ghost end: nat, ghost free: seq<Addr>)
    returns (g: Fields, nodes': Nodes, k: nat, next: Addr, ghost bs': seq<Block>, ghost end': nat)
    requires Sound(f, h, nodes, mem, bs, end, [], free, cap) && !f.reserved
    requires 0 < n <= |Free(bs, mem)| && block == AddrAt(bs, SpaceStart(bs, end, cap))
    ensures Sound(g, h, nodes', mem, bs', end', [], free, cap) && !g.reserved && g.peeked == f.peeked && 0 < k <= n
    ensures k < n ==> next == AddrAt(bs', SpaceStart(bs', end', cap))
    ensures Published(nodes, bs, nodes', bs', mem, free, k) && Filled(bs, end, bs', end')
  {
    hide Wired;
    hide PoolOk;
    hide Apart;
    hide Confined;
    hide Held;
    hide WellFormed;
    hide Backed;
    hide Moved;
    hide SetNode;
    hide Filled;
    SoundBacked(nodes, f.head, f.tail, bs, h, mem, free, cap);
    MovedSize(Data(bs, mem), Free(bs, mem));
    ghost var k';
    end', k', bs' := FillLaw(bs, mem, end, cap, n);
    FilledHere(bs, end, end', k');
    NodeAt(nodes, f.head, f.tail, bs, end');
    var nd := nodes[block];
    var spaceLen := cap - nd.offset - nd.len;
    k := if n < spaceLen then n else spaceLen;
    assert Fill(Block(block, nd.offset, nd.len), k) == bs'[end'];
    SetNodeLaw(f, h, nodes, mem, bs, free, cap, end', bs'[end']);
    nodes', next := SetNode(nodes, Fill(Block(block, nd.offset, nd.len), k)), nd.next;
    g := f.(end := block, dataSize := f.dataSize + k);
  }

  /** Publishes the first `size` free bytes, in order, and closes the reservation. */
  method CommitLoop(f: Fields, h: Head, nodes: Nodes, mem: Mem, cap: nat, size: nat,
                    ghost bs: seq<Block>, ghost end: nat, ghost free: seq<Addr>)
    returns (g: Fields, nodes': Nodes, ghost bs': seq<Block>, ghost end': nat)
    requires Sound(f.(reserved := false), h, nodes, mem, bs, end, [], free, cap) && size <= |Free(bs, mem)|
    ensures Sound(g, h, nodes', mem, bs', end', [], free, cap) && !g.reserved && g.peeked == f.peeked
    ensures Published(nodes, bs, nodes', bs', mem, free, size) && Filled(bs, end, bs', end')
  {
    hide Sound;
    hide Published;
    hide Filled;
    FilledNone(bs, end);
    CommitStart(f, h, nodes, mem, bs, end, free, cap);
    var block := SpaceHead(f, nodes, cap);
    g, nodes', bs', end' := f.(reserved := false), nodes, bs, end;
    var done: nat := 0;
    while done < size
      invariant Sound(g, h, nodes', mem, bs', end', [], free, cap) && !g.reserved && g.peeked == f.peeked
      invariant done <= size && Published(nodes, bs, nodes', bs', mem, free, done) && Filled(bs, end, bs', end')
      invariant done < size ==> block == AddrAt(bs', SpaceStart(bs', end', cap))
      decreases size - done
    {
      PublishedSize(nodes, bs, nodes', bs', mem, free, done);
      ghost var b1, e1, n1 := bs', end', nodes';
      var k;
      g, nodes', k, block, bs', end' := CommitStep(g, h, nodes', mem, cap, block, size - done, bs', end', free);
      FilledTrans(bs, end, b1, e1, bs', end');
      PublishedTrans(nodes, bs, n1, b1, nodes', bs', mem, free, done, k);
      done := done + k;
    }
  }

  // ------------------------------------------------------------------------- draining

  /** The list part of a turn: the first block gives what it can of `n` bytes and, used up, goes back to the pool. */
  method DrainHead(f: Fields, h: Head, nodes: Nodes, cap: nat, n: nat, ghost mem: Mem, ghost bs: seq<Block>,
                   ghost free: seq<Addr>)
    returns (g: Fields, h': Head, nodes': Nodes, k: nat, ghost free': seq<Addr>)
    requires Wired(nodes, f.head, f.tail, bs) && PoolOk(h, nodes, mem, free, cap) && Apart(bs, free) && bs != []
    requires f.blockCnt == |bs| && n <= f.dataSize && bs[0].SpaceLen(cap) >= 0
    ensures k == Min(n, bs[0].len)
    ensures g == f.(head := g.head, blockCnt := |DrainFront(bs, k, cap)|, dataSize := f.dataSize - k)
    ensures Wired(nodes', g.head, g.tail, DrainFront(bs, k, cap)) && PoolOk(h', nodes', mem, free', cap)
    ensures Apart(DrainFront(bs, k, cap), free') && Held(DrainFront(bs, k, cap), free') == Held(bs, free)
    ensures Confined(nodes, mem, nodes', mem, Held(bs, free), Held(bs, free))
  {
    NodeAt(nodes, f.head, f.tail, bs, 0);
    var nd := nodes[f.head];
    k := if nd.len < n then nd.len else n;
    var b := Block(f.head, nd.offset + k, nd.len - k);
    assert b == Drain(bs[0], k);
    SetNodeLaw(f, h, nodes, mem, bs, free, cap, 0, b);
    nodes' := SetNode(nodes, b);
    g, h', free' := f.(dataSize := f.dataSize - k), h, free;
    if b.len == 0 && b.offset == cap {
      PruneLaw(f, h, nodes', mem, bs[0 := b], free, cap);
      assert bs[0 := b][1..] == DrainFront(bs, k, cap);
      ConfinedTrans(nodes, mem, nodes', mem, DeleteNodes(h, nodes', f.head), mem, Held(bs, free), Held(bs, free),
                    Held(bs, free));
      g := g.(head := nodes'[f.head].next, blockCnt := f.blockCnt - 1);
      h', nodes', free' := DeleteHead(h, f.head), DeleteNodes(h, nodes', f.head), [f.head] + free;
    } else {
      assert bs[0 := b] == DrainFront(bs, k, cap);
    }
  }

  /** One turn of a drain. */
  method DrainStep(f: Fields, h: Head, nodes: Nodes, mem: Mem, cap: nat, n: nat,
                   ghost bs: seq<Block>, ghost end: nat, ghost spans: seq<Span>, ghost free: seq<Addr>)
    returns (g: Fields, h': Head, nodes': Nodes, k: nat, ghost bs': seq<Block>, ghost end': nat, ghost free': seq<Addr>)
    requires Sound(f.(end := AddrAt(bs, end)), h, nodes, mem, bs, end, spans, free, cap) && 0 < n <= f.dataSize
    ensures Sound(g.(end := AddrAt(bs', end')), h', nodes', mem, bs', end', spans, free', cap)
    ensures g.end == f.end && g.reserved == f.reserved && g.peeked == f.peeked && 0 < k <= n
    ensures g.dataSize == f.dataSize - k
    ensures g.dataSize > 0 ==> AddrAt(bs', end') == AddrAt(bs, end)
    ensures Consumed(nodes, mem, bs, free, nodes', bs', free', k)
  {
    SoundBacked(nodes, f.head, f.tail, bs, h, mem, free, cap);
    EndOfEmpty(bs, mem, end, cap);
    g, h', nodes', k, free' := DrainHead(f, h, nodes, cap, n, mem, bs, free);
    DrainStepLaw(bs, mem, end, spans, f.reserved, k, cap);
    bs', end' := DrainFront(bs, k, cap), DrainEnd(bs, end, k, cap);
  }

  /** Drains `size` bytes from the front, pruning used-up blocks. */
  method DrainLoop(f: Fields, h: Head, nodes: Nodes, mem: Mem, cap: nat, size: nat,
                   ghost bs: seq<Block>, ghost end: nat, ghost spans: seq<Span>, ghost free: seq<Addr>)
    returns (g: Fields, h': Head, nodes': Nodes, ghost bs': seq<Block>, ghost end': nat, ghost free': seq<Addr>)
    requires Sound(f, h, nodes, mem, bs, end, spans, free, cap) && size <= f.dataSize
    ensures Sound(g.(end := AddrAt(bs', end')), h', nodes', mem, bs', end', spans, free', cap)
    ensures g.end == f.end && g.reserved == f.reserved && g.peeked == f.peeked && g.dataSize == f.dataSize - size
    ensures g.dataSize > 0 ==> f.end == AddrAt(bs', end')
    ensures Consumed(nodes, mem, bs, free, nodes', bs', free', size)
  {
    hide Sound;
    hide Consumed;
    hide AddrAt;
    ConsumedNone(f, h, nodes, mem, bs, end, spans, free, cap);
    g, h', nodes', bs', end', free' := f, h, nodes, bs, end, free;
    var done: nat := 0;
    while done < size
      invariant Sound(g.(end := AddrAt(bs', end')), h', nodes', mem, bs', end', spans, free', cap)
      invariant g.end == f.end && g.reserved == f.reserved && g.peeked == f.peeked && g.dataSize == f.dataSize - done
      invariant g.dataSize > 0 ==> f.end == AddrAt(bs', end')
      invariant done <= size && Consumed(nodes, mem, bs, free, nodes', bs', free', done)
      decreases size - done
    {
      ghost var n1, b1, f1 := nodes', bs', free';
      var k;
      g, h', nodes', k, bs', end', free' := DrainStep(g, h', nodes', mem, cap, size - done, bs', end', spans, free');
      ConsumedTrans(nodes, mem, bs, free, n1, b1, f1, nodes', bs', free', done, k);
      done := done + k;
    }
  }

  /** The whole of `Drain`. */
  method DrainBuffer(f: Fields, h: Head, nodes: Nodes, mem: Mem, cap: nat, size: nat,
                     ghost bs: seq<Block>, ghost end: nat, ghost spans: seq<Span>, ghost free: seq<Addr>)
    returns (g: Fields, h': Head, nodes': Nodes, ghost bs': seq<Block>, ghost end': nat, ghost free': seq<Addr>)
    requires Sound(f, h, nodes, mem, bs, end, spans, free, cap) && size <= f.dataSize
    ensures Sound(g, h', nodes', mem, bs', end', spans, free', cap) && g.reserved == f.reserved && !g.peeked
    ensures Data(bs', mem) == Data(bs, mem)[size..]
    ensures f.reserved || size < f.dataSize ==> Free(bs', mem) == Free(bs, mem)
    ensures Held(bs', free') == Held(bs, free) && Confined(nodes, mem, nodes', mem, Held(bs, free), Held(bs, free))
  {
    g, h', nodes', bs', end', free' := DrainLoop(f, h, nodes, mem, cap, size, bs, end, spans, free);
    g := g.(peeked := false);
    if g.dataSize == 0 {
      EmptiedLaw(g, h', nodes', mem, bs', end', spans, free', cap);
      g := g.(end := g.head);
      if g.head != NULL && !g.reserved {
        RestartLaw(g, h', nodes', mem, bs', spans, free', cap);
        ghost var n1 := nodes';
        NodeAt(nodes', g.head, g.tail, bs', 0);
        nodes' := SetNode(nodes', Block(g.head, 0, nodes'[g.head].len));
        ConfinedTrans(nodes, mem, n1, mem, nodes', mem, Held(bs, free), Held(bs, free), Held(bs, free));
        bs' := bs'[0 := bs'[0].(offset := 0)];
      }
    }
  }

  // ----------------------------------------------------- writing the reserved memory

  /** Writes `data` into the reserved spans one after the other, as a scattered read does. */
  method Scatter(mem: Mem, spans: seq<Span>, data: seq<Byte>, ghost bs: seq<Block>, ghost end: nat, ghost cap: nat)
    returns (mem': Mem)
    requires WellFormed(bs, end, cap) && Backed(bs, mem, cap) && SpansFit(spans, bs, SpaceStart(bs, end, cap), cap)
    requires Distinct(bs)
    requires |data| <= Total(spans) <= |Free(bs, mem)|
    ensures Deposited(bs, mem, mem', data, |data|)
  {
    hide Deposited;
    hide WellFormed;
    hide Backed;
    hide Distinct;
    hide SpansFit;
    hide Write;
    mem' := mem;
    var j: nat, done: nat := 0, 0;
    DepositedNone(bs, mem, data);
    while j < |spans| && done < |data|
      invariant j <= |spans| && done <= |data| && (done < |data| ==> done == TotalTo(spans, j))
      invariant Deposited(bs, mem, mem', data, done)
    {
      var x := spans[j];
      var k := if |data| - done < x.len then |data| - done else x.len;
      ghost var m := DepositLaw(bs, mem, mem', end, spans, cap, j, data, done, k);
      mem' := Write(mem', x.block, x.start, data[done..done + k]);
      assert mem' == m && TotalTo(spans, j + 1) == TotalTo(spans, j) + x.len;
      j, done := j + 1, done + k;
    }
    assert done == |data|;
  }

  // -------------------------------------------------------------------------- peeking

  /** One span for each block with data; together they show the whole queue. */
  method PeekLoop(f: Fields, nodes: Nodes, ghost mem: Mem, ghost cap: nat,
                  ghost h: Head, ghost bs: seq<Block>, ghost end: nat, ghost spans: seq<Span>, ghost free: seq<Addr>)
    returns (r: seq<Span>)
    requires Sound(f, h, nodes, mem, bs, end, spans, free, cap)
    ensures Shows(r, bs, end) && Gathered(r, mem, |r|) == Data(bs, mem) && Total(r) == |Data(bs, mem)|
  {
    hide Sound;
    hide Whole;
    hide Shows;
    r := [];
    var b := f.head;
    WholeNone(bs);
    PeekStart(f, h, nodes, mem, bs, end, spans, free, cap);
    while b != NULL && nodes[b].len > 0
      invariant |r| <= |bs| && b == AddrAt(bs, |r|)
      invariant (b != NULL ==> b in nodes && |r| < |bs|) && (b == NULL ==> |r| == |bs|)
      invariant Whole(r, bs)
      decreases |bs| - |r|
    {
      var x := Span(b, nodes[b].offset, nodes[b].len);
      PeekBlock(f, h, nodes, mem, bs, end, spans, free, cap, |r|);
      WholeMore(r, bs, x);
      r := r + [x];
      b := nodes[b].next;
    }
    PeekEnd(f, h, nodes, mem, bs, end, spans, free, cap, |r|);
    PeekAll(r, f, h, nodes, mem, bs, end, spans, free, cap);
  }

  /** Copies up to `size` bytes out of the peeked spans. */
  method GatherLoop(spans: seq<Span>, ghost nodes: Nodes, mem: Mem, size: nat) returns (out: seq<Byte>)
    requires Live(spans, nodes, mem)
    ensures out == Prefix(Gathered(spans, mem, |spans|), size)
  {
    hide Live;
    hide Prefix;
    out := [];
    var i: nat := 0;
    GatherNone(spans, mem, size);
    while i < |spans| && size > 0
      invariant i <= |spans| && |out| <= size && out == Prefix(Gathered(spans, mem, i), size)
      invariant size == 0 ==> out == Prefix(Gathered(spans, mem, |spans|), size)
      decreases |spans| - i
    {
      var x := spans[i];
      var remaining := size - |out|;
      var k := if remaining > x.len then x.len else remaining;
      LiveAt(spans, nodes, mem, i);
      var piece := mem[x.block][x.start..x.start + k];
      GatherNext(spans, nodes, mem, i, size, out, k, piece);
      out := out + piece;
      i := i + 1;
    }
  }

  // ------------------------------------------------------------------------ the class

  class Buffer {
    const pool: Freelist
    var f: Fields
    ghost var bs: seq<Block>
    ghost var end: nat
    /** The spans of the open reservation. */
    ghost var spans: seq<Span>
    /** The spans of the last peek. */
    ghost var shown: seq<Span>

    ghost predicate Valid()
      reads this, pool
    {
      && Sound(f, pool.h, pool.nodes, pool.mem, bs, end, spans, pool.free, pool.cap)
      && (f.peeked ==> Shows(shown, bs, end))
    }

    /** The byte queue the buffer stands for. */
    ghost function Contents(): seq<Byte>
      reads this, pool
    {
      Data(bs, pool.mem)
    }

    /** The memory behind the queue that a producer can fill. */
    ghost function Spare(): seq<Byte>
      reads this, pool
    {
      Free(bs, pool.mem)
    }

    /** The bytes that lie in the peeked spans. */
    ghost function Peeked(): seq<Byte>
      reads this, pool
    {
      Gathered(shown, pool.mem, |shown|)
    }

    /** A peek that is going on stays as it is: the same spans, with the same bytes in them. */
    twostate predicate Steady()
      reads this, pool
    {
      f.peeked == old(f.peeked) && shown == old(shown) && (f.peeked ==> Peeked() == old(Peeked()))
    }

    /** The blocks this buffer may touch: its own and the recycled ones. */
    ghost function Reach(): set<Addr>
      reads this, pool
    {
      Held(bs, pool.free)
    }

    /** Blocks that were neither in the chain nor in the freelist are as they were. */
    twostate predicate Local()
      reads this, pool
    {
      Confined(old(pool.nodes), old(pool.mem), pool.nodes, pool.mem, old(Reach()), Reach())
    }

    constructor (pool: Freelist)
      requires pool.Valid()
      ensures Valid() && this.pool == pool && bs == [] && Contents() == [] && !f.reserved && !f.peeked
    {
      this.pool := pool;
      f, bs, end, spans, shown := Fields(NULL, NULL, NULL, 0, 0, false, false), [], 0, [], [];
    }

    /** `space_size()` is exactly the free space. */
    method SpaceSize() returns (n: nat)
      requires Valid()
      ensures n == |Spare()|
    {
      if f.head == NULL {
        return 0;
      }
      SoundBacked(pool.nodes, f.head, f.tail, bs, pool.h, pool.mem, pool.free, pool.cap);
      SizesFrom(bs, pool.mem, end, pool.cap, 0);
      NodeAt(pool.nodes, f.head, f.tail, bs, 0);
      n := f.blockCnt * pool.cap - f.dataSize - pool.nodes[f.head].offset;
    }

    /** Spans for exactly `size` bytes at the start of the free space. */
    method Reserve(size: nat) returns (r: seq<Span>)
      requires Valid() && !f.reserved
      modifies this, pool
      ensures Valid() && f.reserved && Steady() && r == spans && Total(r) == size
      ensures size == 0 ==> f == old(f).(reserved := true)
      ensures Contents() == old(Contents()) && old(Spare()) <= Spare() && Local()
    {
      hide Sound;
      hide Confined;
      var h, nodes, mem := pool.h, pool.nodes, pool.mem;
      ghost var free := pool.free;
      ReserveSound(f, h, nodes, mem, bs, end, spans, free, pool.cap);
      var g;
      ghost var cs;
      g, h, nodes, mem, r, cs, free := ReserveLoop(f, h, nodes, mem, pool.cap, size, bs, end, free);
      if f.peeked {
        PeekedGrown(f, pool.h, pool.nodes, pool.mem, bs, end, spans, pool.free, pool.cap, g, h, nodes, mem, cs, r,
                    free, shown);
      }
      pool.Update(h, nodes, mem, free);
      f, bs, spans := g, cs, r;
    }

    /** Spans of whole blocks for at least `size` bytes, overshooting by less than a block. */
    method ReserveAtLeast(size: nat) returns (r: seq<Span>, total: nat)
      requires Valid() && !f.reserved
      modifies this, pool
      ensures Valid() && f.reserved && Steady() && r == spans && Total(r) == total
      ensures size <= total && (size > 0 ==> total < size + pool.cap)
      ensures Contents() == old(Contents()) && old(Spare()) <= Spare() && Local()
    {
      hide Sound;
      hide Confined;
      var h, nodes, mem := pool.h, pool.nodes, pool.mem;
      ghost var free := pool.free;
      ReserveSound(f, h, nodes, mem, bs, end, spans, free, pool.cap);
      var g;
      ghost var cs;
      g, h, nodes, mem, r, total, cs, free := ReserveAtLeastLoop(f, h, nodes, mem, pool.cap, size, bs, end, free);
      if f.peeked {
        PeekedGrown(f, pool.h, pool.nodes, pool.mem, bs, end, spans, pool.free, pool.cap, g, h, nodes, mem, cs, r,
                    free, shown);
      }
      pool.Update(h, nodes, mem, free);
      f, bs, spans := g, cs, r;
    }

    /** What the producer wrote into the open reservation's spans, read in order, is the start of the free space. */
    lemma ReservedFirst()
      requires Valid() && f.reserved
      ensures Total(spans) <= |Spare()| && Gathered(spans, pool.mem, |spans|) == Spare()[..Total(spans)]
    {
      SoundBacked(pool.nodes, f.head, f.tail, bs, pool.h, pool.mem, pool.free, pool.cap);
      SpansShow(bs, pool.mem, end, spans, pool.cap, |spans|);
    }

    /** What lies in the peeked spans, read in order, is the start of the queue. */
    lemma PeekedFirst()
      requires Valid() && f.peeked
      ensures Live(shown, pool.nodes, pool.mem) && Total(shown) <= |Contents()|
      ensures Peeked() == Contents()[..Total(shown)]
    {
      PeekedLaw(shown, f, pool.h, pool.nodes, pool.mem, bs, end, spans, pool.free, pool.cap);
    }

    /** The producer fills the reserved spans in order with `data`. */
    method Deposit(data: seq<Byte>, reserved: seq<Span>)
      requires Valid() && f.reserved && reserved == spans && |data| <= Total(spans)
      modifies pool
      ensures Valid() && Contents() == old(Contents()) && |data| <= |old(Spare())|
      ensures Spare() == data + old(Spare())[|data|..]
      ensures Local() && Steady()
    {
      hide Sound;
      hide Confined;
      hide Deposited;
      hide WellFormed;
      hide Backed;
      hide SpansFit;
      hide Distinct;
      var mem := pool.mem;
      DepositReady(f, pool.h, pool.nodes, mem, bs, end, spans, pool.free, pool.cap);
      var mem' := Scatter(mem, reserved, data, bs, end, pool.cap);
      DepositSound(f, pool.h, pool.nodes, mem, mem', bs, end, spans, pool.free, pool.cap, data);
      if f.peeked {
        PeekedKept(f, pool.h, pool.nodes, mem, bs, end, spans, pool.free, pool.cap,
                   f, pool.h, pool.nodes, mem', bs, end, spans, pool.free, shown);
      }
      pool.mem := mem';
    }

    /** Publishes the first `size` bytes of the reserved memory behind the queue. */
    method Commit(size: nat)
      requires Valid() && f.reserved && f.head != NULL && size <= |Spare()|
      modifies this, pool
      ensures Valid() && !f.reserved && Steady()
      ensures Contents() == old(Contents() + Spare()[..size]) && Spare() == old(Spare()[size..]) && Local()
    {
      hide Sound;
      hide Confined;
      UnreservedSound(f, pool.h, pool.nodes, pool.mem, bs, end, spans, pool.free, pool.cap);
      var nodes := pool.nodes;
      var g;
      ghost var cs, e;
      g, nodes, cs, e := CommitLoop(f, pool.h, nodes, pool.mem, pool.cap, size, bs, end, pool.free);
      if f.peeked {
        ShowsFilled(shown, bs, end, cs, e);
      }
      pool.nodes := nodes;
      f, bs, end, spans := g, cs, e, [];
    }

    /** One span for each block with data; together they show the whole queue. */
    method Peek() returns (r: seq<Span>)
      requires Valid() && !f.peeked
      modifies this`f, this`shown
      ensures Valid() && f == old(f).(peeked := true) && r == shown
      ensures Live(r, pool.nodes, pool.mem) && Peeked() == Contents() && Total(r) == |Contents()|
    {
      r := PeekLoop(f, pool.nodes, pool.mem, pool.cap, pool.h, bs, end, spans, pool.free);
      PeekedLaw(r, f, pool.h, pool.nodes, pool.mem, bs, end, spans, pool.free, pool.cap);
      f, shown := f.(peeked := true), r;
    }

    /**
     Consumes the first `size` bytes.  A reservation that is open stays valid: its spans are
     still chain memory (`Valid`) and still the start of the same free space.
     */
    method Drain(size: nat)
      requires Valid() && f.peeked && size <= |Contents()|
      modifies this, pool
      ensures Valid() && !f.peeked && f.reserved == old(f.reserved) && spans == old(spans)
      ensures Contents() == old(Contents()[size..]) && Local() && pool.mem == old(pool.mem)
      ensures f.reserved || Contents() != [] ==> Spare() == old(Spare())
    {
      hide Sound;
      hide Confined;
      DataSizeLaw(f, pool.h, pool.nodes, pool.mem, bs, end, spans, pool.free, pool.cap);
      var h, nodes := pool.h, pool.nodes;
      ghost var free := pool.free;
      var g;
      ghost var cs, e;
      g, h, nodes, cs, e, free := DrainBuffer(f, h, nodes, pool.mem, pool.cap, size, bs, end, spans, free);
      pool.Update(h, nodes, pool.mem, free);
      f, bs, end := g, cs, e;
    }

    lemma NonEmpty()
      requires Valid() && f.reserved && Total(spans) > 0
      ensures f.head != NULL
    {
      ReservedHead(f, pool.h, pool.nodes, pool.mem, bs, end, spans, pool.free, pool.cap);
    }

    /** A read into the reserved spans brings `data`, which is then committed. */
    method Receive(data: seq<Byte>, reserved: seq<Span>)
      requires Valid() && f.reserved && f.head != NULL && reserved == spans && |data| <= Total(spans)
      modifies this, pool
      ensures Valid() && !f.reserved && Steady() && Contents() == old(Contents()) + data && Local()
    {
      ghost var n0, m0, o0 := pool.nodes, pool.mem, Reach();
      Deposit(data, reserved);
      ghost var n1, m1, o1 := pool.nodes, pool.mem, Reach();
      assert Spare()[..|data|] == data;
      Commit(|data|);
      ConfinedTrans(n0, m0, n1, m1, pool.nodes, pool.mem, o0, o1, Reach());
    }

    /** Appends `data` to the queue. */
    method CopyIn(data: seq<Byte>)
      requires Valid() && !f.reserved && (data != [] || f.head != NULL)
      modifies this, pool
      ensures Valid() && !f.reserved && Steady() && Contents() == old(Contents()) + data && Local()
    {
      ghost var n0, m0, o0 := pool.nodes, pool.mem, Reach();
      var r := Reserve(|data|);
      if data != [] {
        NonEmpty();
      }
      ghost var n1, m1, o1 := pool.nodes, pool.mem, Reach();
      Receive(data, r);
      ConfinedTrans(n0, m0, n1, m1, pool.nodes, pool.mem, o0, o1, Reach());
    }

    /** Destruction hands the whole chain to the freelist and touches no foreign block. */
    method Release()
      requires Valid()
      modifies this, pool
      ensures pool.Valid() && Members(pool.free) == old(Reach())
      ensures Confined(old(pool.nodes), old(pool.mem), pool.nodes, pool.mem, old(Reach()), Members(pool.free))
    {
      ChainLaw(pool.nodes, f.head, f.tail, bs, pool.free);
      pool.DeleteChain(f.head, AddrList(bs));
    }

    /** Reads up to `size` bytes out of the peeked spans. */
    method Gather(r: seq<Span>, size: nat) returns (out: seq<Byte>)
      requires Valid() && f.peeked && r == shown
      ensures out == Prefix(Peeked(), size) && |out| <= |Contents()|
    {
      hide Sound;
      hide Shows;
      hide Live;
      PeekedFirst();
      PrefixSize(Peeked(), size);
      out := GatherLoop(r, pool.nodes, pool.mem, size);
    }

    /** Takes up to `size` bytes off the front of the queue. */
    method CopyOut(size: nat) returns (out: seq<Byte>)
      requires Valid() && !f.peeked
      modifies this, pool
      ensures Valid() && !f.peeked && f.reserved == old(f.reserved) && spans == old(spans)
      ensures out == old(Prefix(Contents(), size)) && Contents() == old(Contents()[|out|..]) && Local()
    {
      hide Sound;
      hide Confined;
      hide Shows;
      hide Live;
      hide Prefix;
      hide Gathered;
      hide TotalTo;
      hide Data;
      var r := Peek();
      out := Gather(r, size);
      Drain(|out|);
    }

    /** Two reads in a row take adjacent pieces. */
    method CopyOutTwo(m: nat, n: nat) returns (x: seq<Byte>, y: seq<Byte>)
      requires Valid() && !f.peeked && m + n <= |Contents()|
      modifies this, pool
      ensures Valid() && !f.peeked && f.reserved == old(f.reserved) && spans == old(spans)
      ensures |x| == m && |y| == n && x + y == old(Contents()[..m + n]) && Contents() == old(Contents()[m + n..])
      ensures Local()
    {
      ghost var n0, m0, o0, c := pool.nodes, pool.mem, Reach(), Contents();
      x := CopyOut(m);
      ghost var n1, m1, o1 := pool.nodes, pool.mem, Reach();
      y := CopyOut(n);
      ConfinedTrans(n0, m0, n1, m1, pool.nodes, pool.mem, o0, o1, Reach());
      TwoPieces(c, m, n);
    }
  }
}
