/**
 What it means for a buffer's fields, its list of blocks in memory and the freelist to be in
 order, and what single steps do to that: appending, reserving, filling, committing, pruning.
 */
module BufferLaws {
  import opened Bytes
  import opened BlockChain
  import opened BlockPool
  import opened Counting

  /** The data members of a buffer. */
  datatype Fields = Fields(head: Addr, end: Addr, tail: Addr, blockCnt: nat, dataSize: nat, reserved: bool,
                           peeked: bool)

  /** The list in memory from `head` to `tail` consists of the blocks `bs`. */
  ghost predicate Wired(nodes: Nodes, head: Addr, tail: Addr, bs: seq<Block>) {
    && head == AddrAt(bs, 0)
    && (bs != [] ==> tail == bs[|bs| - 1].addr)
    && (forall i | 0 <= i < |bs| :: bs[i].addr != NULL && bs[i].addr in nodes)
    && (forall i {:trigger nodes[bs[i].addr]} | 0 <= i < |bs| ::
          nodes[bs[i].addr] == Node(AddrAt(bs, i + 1), bs[i].offset, bs[i].len))
    && (forall i, j {:trigger Differ(bs[i].addr, bs[j].addr)} | 0 <= i < j < |bs| :: Differ(bs[i].addr, bs[j].addr))
  }

  /** Chain and freelist have no block in common. */
  ghost predicate Apart(bs: seq<Block>, free: seq<Addr>) {
    forall i, j {:trigger Differ(bs[i].addr, free[j])} | 0 <= i < |bs| && 0 <= j < |free| :: Differ(bs[i].addr, free[j])
  }

  /**
   The pointers, counters and headers in memory are those of the chain `bs`, the pool is in
   order and apart from it, and an open reservation's spans are the free space they claim.
   */
  ghost predicate Sound(f: Fields, h: Head, nodes: Nodes, mem: Mem, bs: seq<Block>, end: nat, spans: seq<Span>,
                        free: seq<Addr>, cap: nat)
  {
    && Wired(nodes, f.head, f.tail, bs)
    && f.blockCnt == |bs|
    && f.end == AddrAt(bs, end)
    && WellFormed(bs, end, cap)
    && f.dataSize == |Data(bs, mem)|
    && (f.reserved ==> SpansFit(spans, bs, SpaceStart(bs, end, cap), cap))
    && PoolOk(h, nodes, mem, free, cap)
    && Apart(bs, free)
  }

  ghost function Addrs(bs: seq<Block>): set<Addr> {
    set i | 0 <= i < |bs| :: bs[i].addr
  }

  ghost function Held(bs: seq<Block>, free: seq<Addr>): set<Addr> {
    Addrs(bs) + Members(free)
  }

  // ----------------------------------------------------------------- writes to blocks

  lemma DifferElsewhere(nodes: Nodes, head: Addr, tail: Addr, bs: seq<Block>, i: nat)
    requires Wired(nodes, head, tail, bs) && i < |bs|
    ensures forall j | 0 <= j < |bs| && j != i :: bs[j].addr != bs[i].addr
  {
    forall j | 0 <= j < |bs| && j != i
      ensures bs[j].addr != bs[i].addr
    {
      assert if i < j then Differ(bs[i].addr, bs[j].addr) else Differ(bs[j].addr, bs[i].addr);
    }
  }

  lemma NotFree(bs: seq<Block>, free: seq<Addr>, i: nat)
    requires Apart(bs, free) && i < |bs|
    ensures bs[i].addr !in free
  {
    assert forall j | 0 <= j < |free| :: Differ(bs[i].addr, free[j]);
  }

  lemma SoundBacked(nodes: Nodes, head: Addr, tail: Addr, bs: seq<Block>, h: Head, mem: Mem, free: seq<Addr>, cap: nat)
    requires Wired(nodes, head, tail, bs) && PoolOk(h, nodes, mem, free, cap)
    ensures Backed(bs, mem, cap)
  {
  }

  /** A buffer's list is not disturbed by writes to blocks outside it. */
  lemma WiredFrame(n: Nodes, n': Nodes, head: Addr, tail: Addr, bs: seq<Block>)
    requires Wired(n, head, tail, bs)
    requires forall i | 0 <= i < |bs| :: bs[i].addr in n' && n'[bs[i].addr] == n[bs[i].addr]
    ensures Wired(n', head, tail, bs)
  {
  }

  /** Linking a loose block behind the tail appends it to the list. */
  lemma WiredAppend(n: Nodes, head: Addr, tail: Addr, bs: seq<Block>, a: Addr)
    requires Wired(n, head, tail, bs) && bs != [] && a != NULL && a in n && n[a] == Node(NULL, 0, 0)
    requires forall i | 0 <= i < |bs| :: bs[i].addr != a
    ensures tail in n && tail == bs[|bs| - 1].addr
    ensures Wired(n[tail := n[tail].(next := a)], head, a, bs + [Block(a, 0, 0)])
  {
    DifferElsewhere(n, head, tail, bs, |bs| - 1);
  }

  /** Changing the header of block `i` changes that block of the chain only. */
  lemma WiredSet(n: Nodes, head: Addr, tail: Addr, bs: seq<Block>, i: nat, b: Block)
    requires Wired(n, head, tail, bs) && i < |bs| && b.addr == bs[i].addr
    ensures b.addr in n
    ensures Wired(n[b.addr := n[b.addr].(offset := b.offset, len := b.len)], head, tail, bs[i := b])
  {
    DifferElsewhere(n, head, tail, bs, i);
  }

  /** Unlinking the first block leaves the list behind it. */
  lemma WiredTail(n: Nodes, head: Addr, tail: Addr, bs: seq<Block>)
    requires Wired(n, head, tail, bs) && bs != []
    ensures head in n && head == bs[0].addr && (forall i | 0 <= i < |bs[1..]| :: bs[1..][i].addr != head)
    ensures Wired(n, n[head].next, tail, bs[1..])
  {
    DifferElsewhere(n, head, tail, bs, 0);
    assert n[bs[0].addr].next == AddrAt(bs, 1);
  }

  lemma NodeAt(n: Nodes, head: Addr, tail: Addr, bs: seq<Block>, i: nat)
    requires Wired(n, head, tail, bs) && i < |bs|
    ensures bs[i].addr != NULL && bs[i].addr in n && n[bs[i].addr] == Node(AddrAt(bs, i + 1), bs[i].offset, bs[i].len)
  {
  }

  // ---------------------------------------------------------------- appending a block

  /** The block handed out by the pool is not one of the chain, nor still free. */
  lemma NewOutside(h: Head, nodes: Nodes, mem: Mem, bs: seq<Block>, free: seq<Addr>, cap: nat)
    requires PoolOk(h, nodes, mem, free, cap) && Apart(bs, free)
    requires forall i | 0 <= i < |bs| :: bs[i].addr in nodes
    ensures forall i | 0 <= i < |bs| :: bs[i].addr != NewAddr(h)
    ensures Apart(bs + [Block(NewAddr(h), 0, 0)], Popped(free))
  {
    NewLaw(h, nodes, mem, free, cap);
    if free != [] {
      assert forall i | 0 <= i < |bs| :: Differ(bs[i].addr, free[0]);
    }
  }

  /** The headers after the pool's next block is linked behind the last block, if there is one. */
  function LinkNodes(f: Fields, h: Head, nodes: Nodes): Nodes {
    var n := NewNodes(h, nodes);
    if f.head == NULL || f.tail !in n then n
    else n[f.tail := n[f.tail].(next := NewAddr(h))]
  }

  lemma LinkLaw(f: Fields, h: Head, nodes: Nodes, mem: Mem, bs: seq<Block>, free: seq<Addr>, cap: nat)
    requires Wired(nodes, f.head, f.tail, bs) && PoolOk(h, nodes, mem, free, cap) && Apart(bs, free)
    ensures var a := NewAddr(h); var n := LinkNodes(f, h, nodes);
            && Wired(n, if f.head == NULL then a else f.head, a, bs + [Block(a, 0, 0)])
            && PoolOk(NewHead(h, nodes), n, NewMem(h, mem, cap), Popped(free), cap)
            && Apart(bs + [Block(a, 0, 0)], Popped(free))
            && Confined(nodes, mem, n, NewMem(h, mem, cap), Held(bs, free), Held(bs + [Block(a, 0, 0)], Popped(free)))
  {
    var a, n := NewAddr(h), NewNodes(h, nodes);
    NewLaw(h, nodes, mem, free, cap);
    NewOutside(h, nodes, mem, bs, free, cap);
    WiredFrame(nodes, n, f.head, f.tail, bs);
    if f.head != NULL {
      WiredAppend(n, f.head, f.tail, bs, a);
      NotFree(bs, free, |bs| - 1);
      WriteLaw(NewHead(h, nodes), n, NewMem(h, mem, cap), Popped(free), cap, f.tail, n[f.tail].(next := a));
    }
    LinkConfined(f, h, nodes, mem, bs, free, cap);
  }

  lemma LinkConfined(f: Fields, h: Head, nodes: Nodes, mem: Mem, bs: seq<Block>, free: seq<Addr>, cap: nat)
    requires Wired(nodes, f.head, f.tail, bs) && PoolOk(h, nodes, mem, free, cap)
    ensures Confined(nodes, mem, LinkNodes(f, h, nodes), NewMem(h, mem, cap), Held(bs, free),
                     Held(bs + [Block(NewAddr(h), 0, 0)], Popped(free)))
  {
    NewLaw(h, nodes, mem, free, cap);
    assert f.head != NULL ==> f.tail in Addrs(bs);
    assert Addrs(bs + [Block(NewAddr(h), 0, 0)]) == Addrs(bs) + {NewAddr(h)} by {
      var cs := bs + [Block(NewAddr(h), 0, 0)];
      assert forall i | 0 <= i < |bs| :: cs[i] == bs[i];
      assert cs[|bs|].addr == NewAddr(h);
    }
  }

  /** Appending moves no data byte and adds the new block's memory to the free space. */
  lemma LinkBytes(h: Head, nodes: Nodes, mem: Mem, bs: seq<Block>, free: seq<Addr>, cap: nat) returns (mem': Mem)
    requires PoolOk(h, nodes, mem, free, cap) && (forall i | 0 <= i < |bs| :: bs[i].addr in nodes)
    ensures mem' == NewMem(h, mem, cap) && NewAddr(h) in mem'
    ensures Data(bs + [Block(NewAddr(h), 0, 0)], mem') == Data(bs, mem)
    ensures Free(bs + [Block(NewAddr(h), 0, 0)], mem') == Free(bs, mem) + mem'[NewAddr(h)]
  {
    mem' := NewMem(h, mem, cap);
    NewLaw(h, nodes, mem, free, cap);
    SameMem(bs, mem, mem', 0);
    AppendStep(bs, mem', NewAddr(h), 0);
  }

  /** What appending a block does to chain and spans. */
  lemma LinkShape(f: Fields, h: Head, nodes: Nodes, mem: Mem, bs: seq<Block>, end: nat, spans: seq<Span>,
                  free: seq<Addr>, cap: nat)
    requires Sound(f, h, nodes, mem, bs, end, spans, free, cap)
    ensures var a, m := NewAddr(h), NewMem(h, mem, cap);
            var bs' := bs + [Block(a, 0, 0)];
            && Data(bs', m) == Data(bs, mem) && Free(bs, mem) <= Free(bs', m)
            && WellFormed(bs', end, cap) && SpaceStart(bs', end, cap) == SpaceStart(bs, end, cap)
            && (f.reserved ==> SpansFit(spans, bs', SpaceStart(bs', end, cap), cap))
            && AddrAt(bs', end) == if f.head == NULL then a else f.end
  {
    var m := LinkBytes(h, nodes, mem, bs, free, cap);
    AppendShape(bs, end, cap, NewAddr(h));
    HeadNull(nodes, f.head, f.tail, bs);
    if f.reserved {
      SpansGrow(spans, bs, SpaceStart(bs, end, cap), cap, Block(NewAddr(h), 0, 0));
    }
  }

  lemma HeadNull(nodes: Nodes, head: Addr, tail: Addr, bs: seq<Block>)
    requires Wired(nodes, head, tail, bs)
    ensures head == NULL <==> bs == []
  {
  }

  lemma SpansGrow(spans: seq<Span>, bs: seq<Block>, s: nat, cap: nat, b: Block)
    requires SpansFit(spans, bs, s, cap)
    ensures SpansFit(spans, bs + [b], s, cap)
  {
  }

  // ------------------------------------------------------------------------ reserving

  /** The first block a producer would write to: `end`, or the one behind it if that is full. */
  function SpaceHead(f: Fields, nodes: Nodes, cap: nat): Addr {
    if f.end !in nodes then NULL
    else if nodes[f.end].offset + nodes[f.end].len == cap then nodes[f.end].next else f.end
  }

  lemma SpaceHeadLaw(f: Fields, nodes: Nodes, bs: seq<Block>, end: nat, cap: nat)
    requires Wired(nodes, f.head, f.tail, bs) && WellFormed(bs, end, cap) && f.end == AddrAt(bs, end) && NULL !in nodes
    ensures SpaceHead(f, nodes, cap) == AddrAt(bs, SpaceStart(bs, end, cap))
  {
    if bs != [] {
      NodeAt(nodes, f.head, f.tail, bs, end);
    }
  }

  /** The pointer an open reservation continues with. */
  ghost function NextSpace(bs: seq<Block>, end: nat, spans: seq<Span>, cap: nat): Addr {
    AddrAt(bs, SpaceStart(bs, end, cap) + |spans|)
  }

  /** What a reservation leaves as it was: the blocks there are, the queue, the free bytes, all foreign blocks. */
  ghost predicate Grown(nodes: Nodes, mem: Mem, bs: seq<Block>, free: seq<Addr>, nodes': Nodes, mem': Mem,
                        bs': seq<Block>, free': seq<Addr>)
  {
    && bs <= bs'
    && Data(bs', mem') == Data(bs, mem)
    && Free(bs, mem) <= Free(bs', mem')
    && Confined(nodes, mem, nodes', mem', Held(bs, free), Held(bs', free'))
  }

  lemma GrownTrans(n0: Nodes, m0: Mem, b0: seq<Block>, f0: seq<Addr>, n1: Nodes, m1: Mem, b1: seq<Block>, f1: seq<Addr>,
                   n2: Nodes, m2: Mem, b2: seq<Block>, f2: seq<Addr>)
    requires Grown(n0, m0, b0, f0, n1, m1, b1, f1) && Grown(n1, m1, b1, f1, n2, m2, b2, f2)
    ensures Grown(n0, m0, b0, f0, n2, m2, b2, f2)
  {
    ConfinedTrans(n0, m0, n1, m1, n2, m2, Held(b0, f0), Held(b1, f1), Held(b2, f2));
  }

  lemma GrownNone(nodes: Nodes, mem: Mem, bs: seq<Block>, free: seq<Addr>)
    ensures Grown(nodes, mem, bs, free, nodes, mem, bs, free)
  {
  }

  /** Where a reservation starts. */
  lemma ReserveStart(f: Fields, h: Head, nodes: Nodes, mem: Mem, bs: seq<Block>, end: nat, free: seq<Addr>, cap: nat)
    requires Sound(f.(reserved := true), h, nodes, mem, bs, end, [], free, cap)
    ensures SpaceHead(f, nodes, cap) == NextSpace(bs, end, [], cap) && Full([], bs, SpaceStart(bs, end, cap), cap)
    ensures cap > 0
  {
    SpaceHeadLaw(f, nodes, bs, end, cap);
  }

  /** A reservation that is not empty lies in the chain. */
  lemma ReservedHead(f: Fields, h: Head, nodes: Nodes, mem: Mem, bs: seq<Block>, end: nat, spans: seq<Span>,
                     free: seq<Addr>, cap: nat)
    requires Sound(f, h, nodes, mem, bs, end, spans, free, cap) && f.reserved && spans != []
    ensures f.head != NULL
  {
  }

  // ----------------------------------------------------------------------- committing

  /** Changes the header of one block. */
  function SetNode(nodes: Nodes, b: Block): Nodes {
    if b.addr in nodes then nodes[b.addr := nodes[b.addr].(offset := b.offset, len := b.len)] else nodes
  }

  /** Changing one block of the chain leaves the pool and every other block alone. */
  lemma SetNodeLaw(f: Fields, h: Head, nodes: Nodes, mem: Mem, bs: seq<Block>, free: seq<Addr>, cap: nat, i: nat,
                   b: Block)
    requires Wired(nodes, f.head, f.tail, bs) && PoolOk(h, nodes, mem, free, cap) && Apart(bs, free)
    requires i < |bs| && b.addr == bs[i].addr
    ensures Wired(SetNode(nodes, b), f.head, f.tail, bs[i := b]) && PoolOk(h, SetNode(nodes, b), mem, free, cap)
    ensures Apart(bs[i := b], free) && Held(bs[i := b], free) == Held(bs, free)
    ensures Confined(nodes, mem, SetNode(nodes, b), mem, Held(bs, free), Held(bs, free))
  {
    WiredSet(nodes, f.head, f.tail, bs, i, b);
    NotFree(bs, free, i);
    WriteLaw(h, nodes, mem, free, cap, b.addr, nodes[b.addr].(offset := b.offset, len := b.len));
    SameAddrs(bs, i, b, free);
    assert b.addr in Addrs(bs);
  }

  lemma SameAddrs(bs: seq<Block>, i: nat, b: Block, free: seq<Addr>)
    requires i < |bs| && b.addr == bs[i].addr
    ensures Addrs(bs[i := b]) == Addrs(bs)
    ensures Apart(bs, free) ==> Apart(bs[i := b], free)
  {
    var cs := bs[i := b];
    assert forall j | 0 <= j < |bs| :: cs[j].addr == bs[j].addr;
    assert forall a | a in Addrs(bs) :: a in Addrs(cs) by {
      forall a | a in Addrs(bs)
        ensures a in Addrs(cs)
      {
        var j :| 0 <= j < |bs| && bs[j].addr == a;
        assert cs[j].addr == a;
      }
    }
  }

  /** Blocks before the boundary are as they were; the others lie where they lay and may have got more data. */
  ghost predicate Filled(bs: seq<Block>, end: nat, bs': seq<Block>, end': nat) {
    && |bs'| == |bs| && end <= end'
    && forall i | 0 <= i < |bs| ::
         && bs'[i].addr == bs[i].addr && bs'[i].offset == bs[i].offset && bs[i].len <= bs'[i].len
         && (i < end ==> bs'[i] == bs[i])
  }

  lemma FilledTrans(b0: seq<Block>, e0: nat, b1: seq<Block>, e1: nat, b2: seq<Block>, e2: nat)
    requires Filled(b0, e0, b1, e1) && Filled(b1, e1, b2, e2)
    ensures Filled(b0, e0, b2, e2)
  {
  }

  lemma FilledNone(bs: seq<Block>, end: nat)
    ensures Filled(bs, end, bs, end)
  {
  }

  lemma FilledHere(bs: seq<Block>, end: nat, s: nat, k: nat)
    requires end <= s < |bs|
    ensures Filled(bs, end, bs[s := Fill(bs[s], k)], s)
  {
  }

  /** The first `k` free bytes have become the last data bytes; foreign blocks are untouched. */
  ghost predicate Published(nodes: Nodes, bs: seq<Block>, nodes': Nodes, bs': seq<Block>, mem: Mem, free: seq<Addr>,
                            k: nat)
  {
    && Moved(Data(bs, mem), Free(bs, mem), Data(bs', mem), Free(bs', mem), k)
    && Held(bs', free) == Held(bs, free)
    && Confined(nodes, mem, nodes', mem, Held(bs, free), Held(bs, free))
  }

  lemma PublishedTrans(n0: Nodes, b0: seq<Block>, n1: Nodes, b1: seq<Block>, n2: Nodes, b2: seq<Block>, mem: Mem,
                       free: seq<Addr>, j: nat, k: nat)
    requires Published(n0, b0, n1, b1, mem, free, j) && Published(n1, b1, n2, b2, mem, free, k)
    ensures Published(n0, b0, n2, b2, mem, free, j + k)
  {
    MovedTrans(Data(b0, mem), Free(b0, mem), Data(b1, mem), Free(b1, mem), Data(b2, mem), Free(b2, mem), j, k);
    ConfinedTrans(n0, mem, n1, mem, n2, mem, Held(b0, free), Held(b0, free), Held(b0, free));
  }

  lemma PublishedNone(nodes: Nodes, bs: seq<Block>, mem: Mem, free: seq<Addr>)
    ensures Published(nodes, bs, nodes, bs, mem, free, 0)
  {
  }

  /** Where a commit starts. */
  lemma CommitStart(f: Fields, h: Head, nodes: Nodes, mem: Mem, bs: seq<Block>, end: nat, free: seq<Addr>, cap: nat)
    requires Sound(f.(reserved := false), h, nodes, mem, bs, end, [], free, cap)
    ensures SpaceHead(f, nodes, cap) == AddrAt(bs, SpaceStart(bs, end, cap))
    ensures Published(nodes, bs, nodes, bs, mem, free, 0)
  {
    hide Published;
    PublishedNone(nodes, bs, mem, free);
    SpaceHeadLaw(f, nodes, bs, end, cap);
  }

  lemma PublishedSize(nodes: Nodes, bs: seq<Block>, nodes': Nodes, bs': seq<Block>, mem: Mem, free: seq<Addr>, k: nat)
    requires Published(nodes, bs, nodes', bs', mem, free, k)
    ensures |Free(bs', mem)| == |Free(bs, mem)| - k
  {
  }

  // ------------------------------------------------------------------------- draining

  /**
   The first `k` data bytes are gone; no free byte moved; the reserved spans, if any, are
   still the free space they were taken from (part of `Sound`); foreign blocks are untouched.
   */
  ghost predicate Consumed(nodes: Nodes, mem: Mem, bs: seq<Block>, free: seq<Addr>, nodes': Nodes, bs': seq<Block>,
                           free': seq<Addr>, k: nat)
  {
    && k <= |Data(bs, mem)|
    && Data(bs', mem) == Data(bs, mem)[k..]
    && Free(bs', mem) == Free(bs, mem)
    && Held(bs', free') == Held(bs, free)
    && Confined(nodes, mem, nodes', mem, Held(bs, free), Held(bs, free))
  }

  lemma ConsumedTrans(n0: Nodes, mem: Mem, b0: seq<Block>, f0: seq<Addr>, n1: Nodes, b1: seq<Block>, f1: seq<Addr>,
                      n2: Nodes, b2: seq<Block>, f2: seq<Addr>, j: nat, k: nat)
    requires Consumed(n0, mem, b0, f0, n1, b1, f1, j) && Consumed(n1, mem, b1, f1, n2, b2, f2, k)
    ensures Consumed(n0, mem, b0, f0, n2, b2, f2, j + k)
  {
    ConfinedTrans(n0, mem, n1, mem, n2, mem, Held(b0, f0), Held(b0, f0), Held(b0, f0));
  }

  /** The first block of the chain goes back to the pool. */
  lemma PruneLaw(f: Fields, h: Head, nodes: Nodes, mem: Mem, bs: seq<Block>, free: seq<Addr>, cap: nat)
    requires Wired(nodes, f.head, f.tail, bs) && PoolOk(h, nodes, mem, free, cap) && Apart(bs, free) && bs != []
    ensures f.head in nodes && f.head == bs[0].addr
    ensures Wired(DeleteNodes(h, nodes, f.head), nodes[f.head].next, f.tail, bs[1..])
    ensures PoolOk(DeleteHead(h, f.head), DeleteNodes(h, nodes, f.head), mem, [f.head] + free, cap)
    ensures Apart(bs[1..], [f.head] + free) && Held(bs[1..], [f.head] + free) == Held(bs, free)
    ensures Confined(nodes, mem, DeleteNodes(h, nodes, f.head), mem, Held(bs, free), Held(bs, free))
  {
    WiredTail(nodes, f.head, f.tail, bs);
    NotFree(bs, free, 0);
    DeleteLaw(h, nodes, mem, free, cap, f.head);
    WiredFrame(nodes, DeleteNodes(h, nodes, f.head), nodes[f.head].next, f.tail, bs[1..]);
    PruneApart(bs, free);
    assert f.head in Addrs(bs);
  }

  lemma PruneApart(bs: seq<Block>, free: seq<Addr>)
    requires Apart(bs, free) && bs != [] && forall i | 0 <= i < |bs[1..]| :: bs[1..][i].addr != bs[0].addr
    ensures Apart(bs[1..], [bs[0].addr] + free) && Held(bs[1..], [bs[0].addr] + free) == Held(bs, free)
  {
    var cs, fr := bs[1..], [bs[0].addr] + free;
    forall i, j | 0 <= i < |cs| && 0 <= j < |fr|
      ensures Differ(cs[i].addr, fr[j])
    {
      assert j > 0 ==> Differ(bs[i + 1].addr, free[j - 1]);
    }
    assert Addrs(bs) == Addrs(cs) + {bs[0].addr} by {
      assert forall i | 0 < i < |bs| :: cs[i - 1] == bs[i];
    }
    assert Members(fr) == {bs[0].addr} + Members(free);
  }

  /** With data left behind it, the end block is not the one that was pruned. */
  lemma EndStays(bs: seq<Block>, mem: Mem, end: nat, k: nat, cap: nat)
    requires WellFormed(bs, end, cap) && Backed(bs, mem, cap) && bs != [] && 0 < k <= bs[0].len
    ensures k < |Data(bs, mem)| ==> AddrAt(DrainFront(bs, k, cap), DrainEnd(bs, end, k, cap)) == AddrAt(bs, end)
    ensures 0 < |Data(bs, mem)| ==> bs[0].len > 0
  {
    if end == 0 {
      NoData(bs, mem, 1);
      FreeSize(bs[0], mem, cap);
    }
  }

  /** What a turn of a drain does to the chain, with or without an open reservation. */
  lemma DrainStepLaw(bs: seq<Block>, mem: Mem, end: nat, spans: seq<Span>, reserved: bool, k: nat, cap: nat)
    requires WellFormed(bs, end, cap) && Backed(bs, mem, cap) && bs != [] && 0 < k <= bs[0].len
    requires reserved ==> SpansFit(spans, bs, SpaceStart(bs, end, cap), cap)
    ensures var cs := DrainFront(bs, k, cap); var end' := DrainEnd(bs, end, k, cap);
            && WellFormed(cs, end', cap)
            && (reserved ==> SpansFit(spans, cs, SpaceStart(cs, end', cap), cap))
            && k <= |Data(bs, mem)| && Data(cs, mem) == Data(bs, mem)[k..] && Free(cs, mem) == Free(bs, mem)
            && (k < |Data(bs, mem)| ==> AddrAt(cs, end') == AddrAt(bs, end))
  {
    DrainBytes(bs, mem, k, cap);
    DrainShape(bs, end, k, cap);
    EndStays(bs, mem, end, k, cap);
    if reserved {
      DrainSpans(spans, bs, end, k, cap);
    }
  }

  lemma ConsumedNone(f: Fields, h: Head, nodes: Nodes, mem: Mem, bs: seq<Block>, end: nat, spans: seq<Span>,
                     free: seq<Addr>, cap: nat)
    requires Sound(f, h, nodes, mem, bs, end, spans, free, cap)
    ensures Consumed(nodes, mem, bs, free, nodes, bs, free, 0) && f.end == AddrAt(bs, end)
    ensures f.(end := AddrAt(bs, end)) == f
  {
  }

  /** An emptied buffer's end block is its first block, which starts over unless it is reserved. */
  lemma EmptiedLaw(f: Fields, h: Head, nodes: Nodes, mem: Mem, bs: seq<Block>, end: nat, spans: seq<Span>,
                   free: seq<Addr>, cap: nat)
    requires Sound(f.(end := AddrAt(bs, end)), h, nodes, mem, bs, end, spans, free, cap) && f.dataSize == 0
    ensures Sound(f.(end := f.head), h, nodes, mem, bs, end, spans, free, cap) && end == 0
    ensures f.head != NULL ==> bs != [] && bs[0].addr == f.head && f.head in nodes && nodes[f.head].len == 0
  {
    SoundBacked(nodes, f.head, f.tail, bs, h, mem, free, cap);
    if bs != [] {
      EndOfEmpty(bs, mem, end, cap);
      NodeAt(nodes, f.head, f.tail, bs, 0);
    }
  }

  lemma RestartLaw(f: Fields, h: Head, nodes: Nodes, mem: Mem, bs: seq<Block>, spans: seq<Span>, free: seq<Addr>,
                   cap: nat)
    requires Sound(f, h, nodes, mem, bs, 0, spans, free, cap) && f.dataSize == 0 && !f.reserved && bs != []
    ensures var b := bs[0].(offset := 0);
            && Sound(f, h, SetNode(nodes, b), mem, bs[0 := b], 0, spans, free, cap)
            && Data(bs[0 := b], mem) == [] && Held(bs[0 := b], free) == Held(bs, free)
            && Confined(nodes, mem, SetNode(nodes, b), mem, Held(bs, free), Held(bs, free))
  {
    SoundBacked(nodes, f.head, f.tail, bs, h, mem, free, cap);
    ResetLaw(bs, mem, 0, cap);
    SetNodeLaw(f, h, nodes, mem, bs, free, cap, 0, bs[0].(offset := 0));
  }

  // ----------------------------------------------------- writing the reserved memory

  /** Where span `j` lies in the free space. */
  lemma {:induction false} SpanCut(bs: seq<Block>, mem: Mem, end: nat, spans: seq<Span>, cap: nat, j: nat)
    returns (t: nat)
    requires WellFormed(bs, end, cap) && Backed(bs, mem, cap) && SpansFit(spans, bs, SpaceStart(bs, end, cap), cap)
    requires j < |spans|
    ensures t < |bs| && spans[j].block == bs[t].addr && spans[j].start == bs[t].offset + bs[t].len
    ensures spans[j].len <= bs[t].SpaceLen(cap) && spans[j].len <= |Free(bs, mem, t)|
    ensures |FreeTo(bs, mem, 0, t)| == TotalTo(spans, j) && bs[t].addr in mem && |mem[bs[t].addr]| == cap
  {
    hide WellFormed;
    hide SpansFit;
    hide Backed;
    hide Block.FreeBytes;
    var s := SpaceStart(bs, end, cap);
    NoFreeBefore(bs, mem, end, cap);
    t := SpanPosition(spans, bs, mem, s, cap, j);
    t := SpanFact(spans, bs, mem, s, cap, j);
    FreeCut(bs, mem, 0, t);
  }

  /** No block occurs twice in the chain. */
  ghost predicate Distinct(bs: seq<Block>) {
    forall i, j {:trigger Differ(bs[i].addr, bs[j].addr)} | 0 <= i < |bs| && 0 <= j < |bs| && i != j ::
      Differ(bs[i].addr, bs[j].addr)
  }

  lemma DistinctFrom(bs: seq<Block>, t: nat)
    requires Distinct(bs) && t < |bs|
    ensures bs[t].addr in Addrs(bs) && forall i | 0 <= i < |bs| && i != t :: bs[i].addr != bs[t].addr
  {
    assert forall i | 0 <= i < |bs| && i != t :: Differ(bs[i].addr, bs[t].addr);
  }

  /** The bytes written to the blocks of `own`, and only those, may have changed. */
  ghost predicate Scribbled(mem: Mem, mem': Mem, own: set<Addr>) {
    && (forall a | a in mem :: a in mem' && |mem'[a]| == |mem[a]|)
    && (forall a | a in mem && a !in own :: a in mem' && mem'[a] == mem[a])
  }

  /** Writing into span `j` changes that part of the free space and no data byte. */
  lemma {:induction false} WriteSpan(bs: seq<Block>, mem: Mem, end: nat, spans: seq<Span>, cap: nat, j: nat,
                                     b: seq<Byte>)
    returns (t: nat, mem': Mem)
    requires WellFormed(bs, end, cap) && Backed(bs, mem, cap) && SpansFit(spans, bs, SpaceStart(bs, end, cap), cap)
    requires Distinct(bs) && j < |spans| && |b| <= spans[j].len
    ensures mem' == Write(mem, spans[j].block, spans[j].start, b) && spans[j].block in Addrs(bs)
    ensures Data(bs, mem') == Data(bs, mem)
    ensures |FreeTo(bs, mem, 0, t)| == TotalTo(spans, j) && |b| <= |Free(bs, mem, t)|
    ensures Free(bs, mem) == FreeTo(bs, mem, 0, t) + Free(bs, mem, t)
    ensures Free(bs, mem') == FreeTo(bs, mem, 0, t) + (b + Free(bs, mem, t)[|b|..])
  {
    hide WellFormed;
    hide SpansFit;
    hide Distinct;
    t := SpanCut(bs, mem, end, spans, cap, j);
    mem' := Store(mem, bs[t], b);
    DistinctFrom(bs, t);
    StoreData(bs, mem, mem', t, b, 0);
    StoreFree(bs, mem, mem', t, b);
  }

  /** `g` with its first `i` bytes replaced by those of `d`. */
  ghost function Mixed(d: seq<Byte>, g: seq<Byte>, i: nat): seq<Byte> {
    if i <= |d| <= |g| then d[..i] + g[i..] else g
  }

  lemma MixedNext(d: seq<Byte>, g: seq<Byte>, i: nat, k: nat, before: seq<Byte>, from: seq<Byte>)
    requires i + k <= |d| <= |g| && Mixed(d, g, i) == before + from && |before| == i
    ensures before + (d[i..i + k] + from[k..]) == Mixed(d, g, i + k)
  {
    assert before == Mixed(d, g, i)[..i] && from == Mixed(d, g, i)[i..];
    assert d[..i] + d[i..i + k] == d[..i + k];
  }

  lemma MixedEnds(d: seq<Byte>, g: seq<Byte>)
    requires |d| <= |g|
    ensures Mixed(d, g, 0) == g && Mixed(d, g, |d|) == d + g[|d|..]
  {
    assert d[..|d|] == d;
  }

  /** One turn: the next piece of `d` goes into span `j`. */
  lemma DepositLaw(bs: seq<Block>, m0: Mem, mem: Mem, end: nat, spans: seq<Span>, cap: nat, j: nat, d: seq<Byte>,
                   i: nat, k: nat)
    returns (mem': Mem)
    requires WellFormed(bs, end, cap) && Backed(bs, m0, cap) && SpansFit(spans, bs, SpaceStart(bs, end, cap), cap)
    requires Distinct(bs)
    requires j < |spans| && i == TotalTo(spans, j) && k <= spans[j].len && i + k <= |d| <= |Free(bs, m0)|
    requires Deposited(bs, m0, mem, d, i)
    ensures mem' == Write(mem, spans[j].block, spans[j].start, d[i..i + k]) && Deposited(bs, m0, mem', d, i + k)
  {
    assert Backed(bs, mem, cap);
    var t;
    t, mem' := WriteSpan(bs, mem, end, spans, cap, j, d[i..i + k]);
    MixedNext(d, Free(bs, m0), i, k, FreeTo(bs, mem, 0, t), Free(bs, mem, t));
  }

  /** The first `i` bytes of `d` have replaced as many free bytes, and nothing else has changed. */
  ghost predicate Deposited(bs: seq<Block>, m0: Mem, mem: Mem, d: seq<Byte>, i: nat) {
    Data(bs, mem) == Data(bs, m0) && Free(bs, mem) == Mixed(d, Free(bs, m0), i) && Scribbled(m0, mem, Addrs(bs))
  }

  /** Filling reserved memory keeps the buffer sound and disturbs no other block. */
  lemma DepositSound(f: Fields, h: Head, nodes: Nodes, mem: Mem, mem': Mem, bs: seq<Block>, end: nat,
                     spans: seq<Span>, free: seq<Addr>, cap: nat, d: seq<Byte>)
    requires Sound(f, h, nodes, mem, bs, end, spans, free, cap) && Deposited(bs, mem, mem', d, |d|)
    requires |d| <= |Free(bs, mem)|
    ensures Sound(f, h, nodes, mem', bs, end, spans, free, cap)
    ensures Data(bs, mem') == Data(bs, mem) && Free(bs, mem') == d + Free(bs, mem)[|d|..]
    ensures Confined(nodes, mem, nodes, mem', Held(bs, free), Held(bs, free))
  {
    MixedEnds(d, Free(bs, mem));
  }

  // -------------------------------------------------------------------------- peeking

  /** The bytes the first `j` spans show. */
  ghost function Gathered(spans: seq<Span>, mem: Mem, j: nat): seq<Byte>
    requires j <= |spans|
  {
    if j == 0 then [] else Gathered(spans, mem, j - 1) + Shown(spans[j - 1], mem)
  }

  function Shown(x: Span, mem: Mem): seq<Byte> {
    if x.block in mem && x.start + x.len <= |mem[x.block]| then mem[x.block][x.start..x.start + x.len] else []
  }

  /** The spans lie in live blocks, and none is empty. */
  ghost predicate Live(spans: seq<Span>, nodes: Nodes, mem: Mem) {
    forall j | 0 <= j < |spans| ::
      && spans[j].block in nodes && spans[j].block in mem
      && 0 < spans[j].len && spans[j].start + spans[j].len <= |mem[spans[j].block]|
  }

  /** The span that shows a block's data. */
  function SpanOf(b: Block): Span {
    Span(b.addr, b.offset, b.len)
  }

  /** The spans show all data of the first blocks. */
  ghost predicate Whole(r: seq<Span>, bs: seq<Block>) {
    |r| <= |bs| && forall j | 0 <= j < |r| :: r[j] == SpanOf(bs[j]) && 0 < bs[j].len
  }

  /**
   The spans lie over the data of the first blocks, up to the boundary; the last of them may
   have got more data since.
   */
  ghost predicate Shows(r: seq<Span>, bs: seq<Block>, end: nat) {
    && |r| <= |bs| && |r| <= end + 1
    && forall j | 0 <= j < |r| ::
         && r[j].block == bs[j].addr && r[j].start == bs[j].offset && 0 < r[j].len <= bs[j].len
         && (j < |r| - 1 ==> r[j] == SpanOf(bs[j]))
  }

  lemma ShownData(b: Block, mem: Mem, cap: nat)
    requires b.addr in mem && |mem[b.addr]| == cap && b.SpaceLen(cap) >= 0
    ensures Shown(SpanOf(b), mem) == b.DataBytes(mem) && |b.DataBytes(mem)| == b.len
  {
  }

  lemma ShownPart(x: Span, b: Block, mem: Mem, cap: nat, rest: seq<Byte>)
    requires b.addr in mem && |mem[b.addr]| == cap && b.SpaceLen(cap) >= 0
    requires x.block == b.addr && x.start == b.offset && x.len <= b.len
    ensures Shown(x, mem) <= b.DataBytes(mem) + rest && |Shown(x, mem)| == x.len
  {
  }

  /** What the first `j` spans show, and the data behind it, is all the data. */
  lemma {:induction false} GatheredCut(r: seq<Span>, bs: seq<Block>, mem: Mem, cap: nat, j: nat)
    requires Backed(bs, mem, cap) && j <= |r| && j <= |bs|
    requires forall i | 0 <= i < j :: r[i] == SpanOf(bs[i]) && bs[i].SpaceLen(cap) >= 0
    ensures Gathered(r, mem, j) + Data(bs, mem, j) == Data(bs, mem) && |Gathered(r, mem, j)| == TotalTo(r, j)
    decreases j
  {
    hide Shown;
    hide Block.DataBytes;
    if j == 0 {
      assert [] + Data(bs, mem) == Data(bs, mem);
    } else {
      GatheredCut(r, bs, mem, cap, j - 1);
      ShownData(bs[j - 1], mem, cap);
      Associate(Gathered(r, mem, j - 1), Shown(r[j - 1], mem), Data(bs, mem, j));
    }
  }

  /** Spans over the data show its first bytes. */
  lemma {:induction false} ShowsBytes(r: seq<Span>, bs: seq<Block>, end: nat, mem: Mem, cap: nat)
    requires Shows(r, bs, end) && WellFormed(bs, end, cap) && Backed(bs, mem, cap)
    ensures Gathered(r, mem, |r|) <= Data(bs, mem) && |Gathered(r, mem, |r|)| == Total(r)
  {
    if r != [] {
      hide Shown;
      hide Block.DataBytes;
      var k := |r| - 1;
      GatheredCut(r, bs, mem, cap, k);
      ShownPart(r[k], bs[k], mem, cap, Data(bs, mem, k + 1));
      PrefixMore(Gathered(r, mem, k), Shown(r[k], mem), Gathered(r, mem, k), Data(bs, mem, k));
    }
  }

  lemma ShowsGrown(r: seq<Span>, bs: seq<Block>, bs': seq<Block>, end: nat)
    requires Shows(r, bs, end) && bs <= bs'
    ensures Shows(r, bs', end)
  {
  }

  lemma ShowsFilled(r: seq<Span>, bs: seq<Block>, end: nat, bs': seq<Block>, end': nat)
    requires Shows(r, bs, end) && Filled(bs, end, bs', end')
    ensures Shows(r, bs', end')
  {
  }

  /** Peeked spans lie in live blocks and show the first bytes of the queue. */
  lemma PeekedLaw(r: seq<Span>, f: Fields, h: Head, nodes: Nodes, mem: Mem, bs: seq<Block>, end: nat,
                  spans: seq<Span>, free: seq<Addr>, cap: nat)
    requires Sound(f, h, nodes, mem, bs, end, spans, free, cap) && Shows(r, bs, end)
    ensures Live(r, nodes, mem)
    ensures Gathered(r, mem, |r|) <= Data(bs, mem) && |Gathered(r, mem, |r|)| == Total(r)
  {
    SoundBacked(nodes, f.head, f.tail, bs, h, mem, free, cap);
    ShowsBytes(r, bs, end, mem, cap);
  }

  /** The spans of a fresh peek show everything. */
  lemma PeekAll(r: seq<Span>, f: Fields, h: Head, nodes: Nodes, mem: Mem, bs: seq<Block>, end: nat, spans: seq<Span>,
                free: seq<Addr>, cap: nat)
    requires Sound(f, h, nodes, mem, bs, end, spans, free, cap) && Whole(r, bs) && Data(bs, mem, |r|) == []
    ensures Shows(r, bs, end) && Gathered(r, mem, |r|) == Data(bs, mem) && Total(r) == |Data(bs, mem)|
  {
    SoundBacked(nodes, f.head, f.tail, bs, h, mem, free, cap);
    GatheredCut(r, bs, mem, cap, |r|);
    assert Gathered(r, mem, |r|) + [] == Gathered(r, mem, |r|);
  }

  lemma WholeMore(r: seq<Span>, bs: seq<Block>, x: Span)
    requires Whole(r, bs) && |r| < |bs| && x == SpanOf(bs[|r|]) && 0 < x.len
    ensures Whole(r + [x], bs)
  {
  }

  lemma WholeNone(bs: seq<Block>)
    ensures Whole([], bs)
  {
  }

  /** Two prefixes of the same length of a sequence and of an extension of it are the same. */
  lemma SamePrefix(a: seq<Byte>, b: seq<Byte>, c: seq<Byte>, d: seq<Byte>)
    requires a <= c && b <= d && c <= d && |a| == |b|
    ensures a == b
  {
    assert a == d[..|a|] && b == d[..|b|];
  }

  /** As long as the queue only grows at its end, the peeked bytes stay as they are. */
  lemma PeekedKept(f: Fields, h: Head, nodes: Nodes, mem: Mem, bs: seq<Block>, end: nat, spans: seq<Span>,
                   free: seq<Addr>, cap: nat,
                   f': Fields, h': Head, nodes': Nodes, mem': Mem, bs': seq<Block>, end': nat, spans': seq<Span>,
                   free': seq<Addr>, r: seq<Span>)
    requires Sound(f, h, nodes, mem, bs, end, spans, free, cap) && Shows(r, bs, end)
    requires Sound(f', h', nodes', mem', bs', end', spans', free', cap) && Shows(r, bs', end')
    requires Data(bs, mem) <= Data(bs', mem')
    ensures Gathered(r, mem', |r|) == Gathered(r, mem, |r|)
  {
    hide Sound;
    hide Shows;
    PeekedLaw(r, f, h, nodes, mem, bs, end, spans, free, cap);
    PeekedLaw(r, f', h', nodes', mem', bs', end', spans', free', cap);
    SamePrefix(Gathered(r, mem, |r|), Gathered(r, mem', |r|), Data(bs, mem), Data(bs', mem'));
  }

  lemma PeekedGrown(f: Fields, h: Head, nodes: Nodes, mem: Mem, bs: seq<Block>, end: nat, spans: seq<Span>,
                    free: seq<Addr>, cap: nat,
                    f': Fields, h': Head, nodes': Nodes, mem': Mem, bs': seq<Block>, spans': seq<Span>,
                    free': seq<Addr>, r: seq<Span>)
    requires Sound(f, h, nodes, mem, bs, end, spans, free, cap) && Shows(r, bs, end)
    requires Sound(f', h', nodes', mem', bs', end, spans', free', cap)
    requires Grown(nodes, mem, bs, free, nodes', mem', bs', free')
    ensures Shows(r, bs', end) && Gathered(r, mem', |r|) == Gathered(r, mem, |r|)
  {
    hide Sound;
    hide Shows;
    ShowsGrown(r, bs, bs', end);
    PeekedKept(f, h, nodes, mem, bs, end, spans, free, cap, f', h', nodes', mem', bs', end, spans', free', r);
  }

  /** A block without data has no data behind it either. */
  lemma NoDataFrom(bs: seq<Block>, mem: Mem, end: nat, cap: nat, i: nat)
    requires WellFormed(bs, end, cap) && i < |bs| && bs[i].len == 0
    ensures Data(bs, mem, i) == []
  {
    NoData(bs, mem, i);
  }

  function Prefix(s: seq<Byte>, n: nat): seq<Byte> {
    s[..Min(n, |s|)]
  }

  lemma PrefixSize(s: seq<Byte>, n: nat)
    ensures |Prefix(s, n)| <= |s|
  {
  }

  lemma TakeMore(a: seq<Byte>, b: seq<Byte>, size: nat)
    ensures Prefix(a + b, size) == Prefix(a, size) + b[..Min(size - Min(size, |a|), |b|)]
  {
  }

  lemma {:induction false} GatherNone(spans: seq<Span>, mem: Mem, size: nat)
    ensures Prefix(Gathered(spans, mem, 0), size) == []
    ensures size == 0 ==> Prefix(Gathered(spans, mem, |spans|), size) == []
  {
  }

  /** What the next span adds to a copy of the first `size` bytes. */
  lemma {:induction false} GatherNext(spans: seq<Span>, nodes: Nodes, mem: Mem, i: nat, size: nat, out: seq<Byte>,
                                      k: nat, piece: seq<Byte>)
    requires Live(spans, nodes, mem) && i < |spans| && out == Prefix(Gathered(spans, mem, i), size) && |out| <= size
    requires k == (if size - |out| > spans[i].len then spans[i].len else size - |out|)
    requires piece == Shown(spans[i].(len := k), mem)
    ensures out + piece == Prefix(Gathered(spans, mem, i + 1), size) && |out + piece| <= size
  {
    var x := spans[i];
    TakeMore(Gathered(spans, mem, i), Shown(x, mem), size);
    assert piece == Shown(x, mem)[..k];
  }

  lemma LiveAt(spans: seq<Span>, nodes: Nodes, mem: Mem, i: nat)
    requires Live(spans, nodes, mem) && i < |spans|
    ensures spans[i].block in mem && spans[i].start + spans[i].len <= |mem[spans[i].block]|
  {
  }

  /** The reserved spans, read in order, are the first bytes of the free space. */
  lemma {:induction false} SpansShow(bs: seq<Block>, mem: Mem, end: nat, spans: seq<Span>, cap: nat, j: nat)
    requires WellFormed(bs, end, cap) && Backed(bs, mem, cap) && SpansFit(spans, bs, SpaceStart(bs, end, cap), cap)
    requires j <= |spans|
    ensures Gathered(spans, mem, j) <= Free(bs, mem) && |Gathered(spans, mem, j)| == TotalTo(spans, j)
  {
    hide WellFormed;
    hide Backed;
    hide SpansFit;
    hide Shown;
    hide SpaceStart;
    hide Free;
    hide FreeTo;
    hide Block.SpaceLen;
    if j > 0 {
      SpansShow(bs, mem, end, spans, cap, j - 1);
      var t := SpanCut(bs, mem, end, spans, cap, j - 1);
      FreeCut(bs, mem, 0, t);
      ShownAt(spans[j - 1], bs, mem, cap, t);
      PrefixMore(Gathered(spans, mem, j - 1), Shown(spans[j - 1], mem), FreeTo(bs, mem, 0, t), Free(bs, mem, t));
    }
  }

  lemma ShownAt(x: Span, bs: seq<Block>, mem: Mem, cap: nat, t: nat)
    requires t < |bs| && bs[t].addr in mem && |mem[bs[t].addr]| == cap && x.block == bs[t].addr
    requires x.start == bs[t].offset + bs[t].len && x.len <= bs[t].SpaceLen(cap)
    ensures Shown(x, mem) <= Free(bs, mem, t) && |Shown(x, mem)| == x.len
  {
    ShownFree(x, bs[t], mem, cap, Free(bs, mem, t + 1));
  }

  lemma ShownFree(x: Span, b: Block, mem: Mem, cap: nat, rest: seq<Byte>)
    requires b.addr in mem && |mem[b.addr]| == cap && x.block == b.addr && x.start == b.offset + b.len
    requires x.len <= b.SpaceLen(cap)
    ensures Shown(x, mem) <= b.FreeBytes(mem) + rest && |Shown(x, mem)| == x.len
  {
  }

  lemma PrefixMore(a: seq<Byte>, b: seq<Byte>, c: seq<Byte>, d: seq<Byte>)
    requires a <= c + d && |a| == |c| && b <= d
    ensures a + b <= c + d
  {
    assert a == c;
  }

  // ------------------------------------------------------------- sharing the freelist

  /** What one buffer does leaves every other buffer on the same freelist exactly as it was. */
  lemma Undisturbed(f: Fields, h: Head, nodes: Nodes, mem: Mem, bs: seq<Block>, end: nat, spans: seq<Span>,
                    free: seq<Addr>, cap: nat,
                    h': Head, nodes': Nodes, mem': Mem, free': seq<Addr>, own: set<Addr>, own': set<Addr>)
    requires Sound(f, h, nodes, mem, bs, end, spans, free, cap) && Confined(nodes, mem, nodes', mem', own, own')
    requires PoolOk(h', nodes', mem', free', cap) && Members(free') <= own' && Addrs(bs) !! own
    ensures Sound(f, h', nodes', mem', bs, end, spans, free', cap) && Addrs(bs) !! own'
    ensures Data(bs, mem') == Data(bs, mem) && Free(bs, mem') == Free(bs, mem)
  {
    assert forall i | 0 <= i < |bs| :: bs[i].addr in Addrs(bs);
    WiredFrame(nodes, nodes', f.head, f.tail, bs);
    SameMem(bs, mem, mem', 0);
    assert forall i, j | 0 <= i < |bs| && 0 <= j < |free'| :: Differ(bs[i].addr, free'[j]) by {
      forall i, j | 0 <= i < |bs| && 0 <= j < |free'|
        ensures Differ(bs[i].addr, free'[j])
      {
        assert free'[j] in Members(free') && bs[i].addr in nodes;
      }
    }
  }

  // ---------------------------------------------------------- giving the chain back

  lemma TwoPieces(c: seq<Byte>, m: nat, n: nat)
    requires m + n <= |c|
    ensures c[..m] + c[m..][..n] == c[..m + n] && c[m..][n..] == c[m + n..]
  {
  }

  ghost function AddrList(bs: seq<Block>): (l: seq<Addr>)
    ensures |l| == |bs| && forall i | 0 <= i < |bs| :: l[i] == bs[i].addr
  {
    if bs == [] then [] else [bs[0].addr] + AddrList(bs[1..])
  }

  lemma ChainLaw(nodes: Nodes, head: Addr, tail: Addr, bs: seq<Block>, free: seq<Addr>)
    requires Wired(nodes, head, tail, bs) && Apart(bs, free)
    ensures var chain := AddrList(bs);
            && Linked(nodes, head, chain) && Members(chain + free) == Held(bs, free)
            && Disjoint(chain, free)
  {
    var chain := AddrList(bs);
    forall i, j | 0 <= i < |chain| && 0 <= j < |free|
      ensures Differ(chain[i], free[j])
    {
      assert Differ(bs[i].addr, free[j]);
    }
    forall i, j | 0 <= i < j < |chain|
      ensures Differ(chain[i], chain[j])
    {
      assert Differ(bs[i].addr, bs[j].addr);
    }
    assert Members(chain) == Addrs(bs);
  }

  lemma WiredDistinct(nodes: Nodes, head: Addr, tail: Addr, bs: seq<Block>)
    requires Wired(nodes, head, tail, bs)
    ensures Distinct(bs)
  {
    forall i, j | 0 <= i < |bs| && 0 <= j < |bs| && i != j
      ensures Differ(bs[i].addr, bs[j].addr)
    {
      DifferElsewhere(nodes, head, tail, bs, j);
    }
  }

  // ------------------------------------------------------------ what soundness gives

  /** A buffer without a reservation is ready for one. */
  lemma ReserveSound(f: Fields, h: Head, nodes: Nodes, mem: Mem, bs: seq<Block>, end: nat, spans: seq<Span>,
                     free: seq<Addr>, cap: nat)
    requires Sound(f, h, nodes, mem, bs, end, spans, free, cap)
    ensures Sound(f.(reserved := true), h, nodes, mem, bs, end, [], free, cap)
  {
  }

  lemma UnreservedSound(f: Fields, h: Head, nodes: Nodes, mem: Mem, bs: seq<Block>, end: nat, spans: seq<Span>,
                        free: seq<Addr>, cap: nat)
    requires Sound(f, h, nodes, mem, bs, end, spans, free, cap)
    ensures Sound(f.(reserved := false), h, nodes, mem, bs, end, [], free, cap)
  {
  }

  lemma DataSizeLaw(f: Fields, h: Head, nodes: Nodes, mem: Mem, bs: seq<Block>, end: nat, spans: seq<Span>,
                    free: seq<Addr>, cap: nat)
    requires Sound(f, h, nodes, mem, bs, end, spans, free, cap)
    ensures f.dataSize == |Data(bs, mem)| && Sound(f.(peeked := true), h, nodes, mem, bs, end, spans, free, cap)
  {
  }

  lemma DepositReady(f: Fields, h: Head, nodes: Nodes, mem: Mem, bs: seq<Block>, end: nat, spans: seq<Span>,
                     free: seq<Addr>, cap: nat)
    requires Sound(f, h, nodes, mem, bs, end, spans, free, cap) && f.reserved
    ensures WellFormed(bs, end, cap) && Backed(bs, mem, cap) && SpansFit(spans, bs, SpaceStart(bs, end, cap), cap)
    ensures Distinct(bs)
    ensures Total(spans) <= |Free(bs, mem)|
  {
    SoundBacked(nodes, f.head, f.tail, bs, h, mem, free, cap);
    TotalFits(spans, bs, mem, end, cap);
    WiredDistinct(nodes, f.head, f.tail, bs);
  }

  lemma DepositedNone(bs: seq<Block>, mem: Mem, d: seq<Byte>)
    requires |d| <= |Free(bs, mem)|
    ensures Deposited(bs, mem, mem, d, 0)
  {
    MixedEnds(d, Free(bs, mem));
  }

  lemma PeekStart(f: Fields, h: Head, nodes: Nodes, mem: Mem, bs: seq<Block>, end: nat, spans: seq<Span>,
                  free: seq<Addr>, cap: nat)
    requires Sound(f, h, nodes, mem, bs, end, spans, free, cap)
    ensures f.head == AddrAt(bs, 0) && (f.head != NULL ==> f.head in nodes && bs != []) && (f.head == NULL ==> bs == [])
  {
  }

  /** The next block as a span sees it. */
  lemma PeekBlock(f: Fields, h: Head, nodes: Nodes, mem: Mem, bs: seq<Block>, end: nat, spans: seq<Span>,
                  free: seq<Addr>, cap: nat, i: nat)
    requires Sound(f, h, nodes, mem, bs, end, spans, free, cap) && i < |bs|
    ensures AddrAt(bs, i) in nodes && nodes[AddrAt(bs, i)] == Node(AddrAt(bs, i + 1), bs[i].offset, bs[i].len)
    ensures i + 1 < |bs| ==> AddrAt(bs, i + 1) != NULL && AddrAt(bs, i + 1) in nodes
    ensures bs[i].addr in mem && bs[i].offset + bs[i].len <= |mem[bs[i].addr]|
  {
    NodeAt(nodes, f.head, f.tail, bs, i);
    if i + 1 < |bs| {
      NodeAt(nodes, f.head, f.tail, bs, i + 1);
    }
  }

  /** Behind the last block with data there is none. */
  lemma PeekEnd(f: Fields, h: Head, nodes: Nodes, mem: Mem, bs: seq<Block>, end: nat, spans: seq<Span>,
                free: seq<Addr>, cap: nat, i: nat)
    requires Sound(f, h, nodes, mem, bs, end, spans, free, cap) && i <= |bs|
    requires i < |bs| ==> AddrAt(bs, i) in nodes && nodes[AddrAt(bs, i)].len == 0
    ensures Data(bs, mem, i) == []
  {
    if i < |bs| {
      NodeAt(nodes, f.head, f.tail, bs, i);
      NoDataFrom(bs, mem, end, cap, i);
    }
  }
}
