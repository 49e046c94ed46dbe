/**
 The layout of a buffer's block chain, as values.

 A `Block` is one node of the chain: where it lies, the start of its consumable data and
 the length of that data; `mem` holds the bytes of every block.  Everything the proxy
 buffer promises is a statement about two byte sequences read off the chain: the
 consumable `Data` and the `Free` space that follows it.  The lemmas say what one turn of
 the buffer's loops (fill a block, drain a block, prune it, append one) does to the two.
 */
module BlockChain {
  import opened Bytes

  type Addr = nat
  type Mem = map<Addr, seq<Byte>>

  datatype Block = Block(addr: Addr, offset: nat, len: nat) {
    /** Free bytes behind the data of this block. */
    function SpaceLen(cap: nat): int {
      cap - offset - len
    }

    function DataBytes(mem: Mem): seq<Byte> {
      if addr in mem && offset + len <= |mem[addr]| then mem[addr][offset..offset + len] else []
    }

    function FreeBytes(mem: Mem): seq<Byte> {
      if addr in mem && offset + len <= |mem[addr]| then mem[addr][offset + len..] else []
    }
  }

  /** A stretch of a block's memory handed to the system for reading or writing. */
  datatype Span = Span(block: Addr, start: nat, len: nat)

  /** The bytes of the first `j` spans. */
  function TotalTo(spans: seq<Span>, j: nat): nat
    requires j <= |spans|
  {
    if j == 0 then 0 else TotalTo(spans, j - 1) + spans[j - 1].len
  }

  function Total(spans: seq<Span>): nat {
    TotalTo(spans, |spans|)
  }

  lemma {:induction false} TotalToAppend(spans: seq<Span>, x: Span, j: nat)
    requires j <= |spans|
    ensures TotalTo(spans + [x], j) == TotalTo(spans, j)
  {
    if j > 0 {
      TotalToAppend(spans, x, j - 1);
    }
  }

  lemma TotalAppend(spans: seq<Span>, x: Span)
    ensures Total(spans + [x]) == Total(spans) + x.len
  {
    TotalToAppend(spans, x, |spans|);
  }

  // ------------------------------------------------------------------- the shape

  /** Every block of the chain has `cap` bytes of memory. */
  ghost predicate Backed(bs: seq<Block>, mem: Mem, cap: nat) {
    forall i | 0 <= i < |bs| :: bs[i].addr in mem && |mem[bs[i].addr]| == cap
  }

  /**
   The shape of a chain whose data ends in block `end`: the blocks before `end` are
   full, the blocks behind it are empty, only the first block may have been drained,
   and a block holding neither data nor space has been pruned.
   */
  predicate WellFormed(bs: seq<Block>, end: nat, cap: nat) {
    && cap > 0
    && (if bs == [] then end == 0 else end < |bs| && bs[0].offset < cap)
    && (forall i | 0 <= i < |bs| :: bs[i].SpaceLen(cap) >= 0)
    && (forall i | 0 < i < |bs| :: bs[i].offset == 0)
    && (forall i | 0 <= i < |bs| :: i < end ==> bs[i].SpaceLen(cap) == 0)
    && (forall i | 0 <= i < |bs| :: end < i ==> bs[i].len == 0)
    && (bs != [] && end > 0 ==> bs[end].len > 0)
  }

  /** The block at which the next reserved or committed byte goes. */
  function SpaceStart(bs: seq<Block>, end: nat, cap: nat): nat {
    if end < |bs| && bs[end].SpaceLen(cap) == 0 then end + 1 else end
  }

  /** The address of block `i`, 0 (the null pointer) behind the last one. */
  function AddrAt(bs: seq<Block>, i: nat): Addr {
    if i < |bs| then bs[i].addr else 0
  }

  /**
   The spans are the free space of consecutive blocks from block `s` on, each used to its
   end except possibly the last.
   */
  ghost predicate SpansFit(spans: seq<Span>, bs: seq<Block>, s: nat, cap: nat) {
    && s + |spans| <= |bs|
    && forall j | 0 <= j < |spans| ::
         && spans[j].block == bs[s + j].addr
         && spans[j].start == bs[s + j].offset + bs[s + j].len
         && 0 < spans[j].len <= bs[s + j].SpaceLen(cap)
         && (j < |spans| - 1 ==> spans[j].len == bs[s + j].SpaceLen(cap))
  }

  /** The last span, if any, takes all the space of its block. */
  ghost predicate Full(spans: seq<Span>, bs: seq<Block>, s: nat, cap: nat) {
    spans == [] ||
    (s + |spans| <= |bs| && spans[|spans| - 1].len == bs[s + |spans| - 1].SpaceLen(cap))
  }

  // ------------------------------------------------------------------- the bytes

  /** The consumable bytes of the blocks from `i` on. */
  function Data(bs: seq<Block>, mem: Mem, i: nat := 0): seq<Byte>
    decreases |bs| - i
  {
    if i >= |bs| then [] else bs[i].DataBytes(mem) + Data(bs, mem, i + 1)
  }

  /** The writable bytes of the blocks from `i` on. */
  function Free(bs: seq<Block>, mem: Mem, i: nat := 0): seq<Byte>
    decreases |bs| - i
  {
    if i >= |bs| then [] else bs[i].FreeBytes(mem) + Free(bs, mem, i + 1)
  }

  /** Data and free space from `i` on depend only on the blocks from `i` on. */
  lemma {:induction false} SameTail(bs: seq<Block>, cs: seq<Block>, mem: Mem, i: nat)
    requires |bs| == |cs|
    requires forall j | i <= j < |bs| :: bs[j] == cs[j]
    ensures Data(bs, mem, i) == Data(cs, mem, i) && Free(bs, mem, i) == Free(cs, mem, i)
    decreases |bs| - i
  {
    if i < |bs| {
      SameTail(bs, cs, mem, i + 1);
    }
  }

  /** ... and on the memory of those blocks. */
  lemma {:induction false} SameMem(bs: seq<Block>, mem: Mem, mem': Mem, i: nat)
    requires forall j | i <= j < |bs| :: bs[j].addr in mem && bs[j].addr in mem' && mem[bs[j].addr] == mem'[bs[j].addr]
    ensures Data(bs, mem, i) == Data(bs, mem', i) && Free(bs, mem, i) == Free(bs, mem', i)
    decreases |bs| - i
  {
    if i < |bs| {
      SameMem(bs, mem, mem', i + 1);
    }
  }

  lemma {:induction false} Shift(bs: seq<Block>, mem: Mem, i: nat)
    requires 0 < i <= |bs|
    ensures Data(bs[1..], mem, i - 1) == Data(bs, mem, i) && Free(bs[1..], mem, i - 1) == Free(bs, mem, i)
    decreases |bs| - i
  {
    if i < |bs| {
      Shift(bs, mem, i + 1);
    }
  }

  lemma {:induction false} NoData(bs: seq<Block>, mem: Mem, i: nat)
    requires forall j | i <= j < |bs| :: bs[j].len == 0
    ensures Data(bs, mem, i) == []
    decreases |bs| - i
  {
    if i < |bs| {
      NoData(bs, mem, i + 1);
    }
  }

  lemma {:induction false} NoFree(bs: seq<Block>, mem: Mem, cap: nat, s: nat)
    requires Backed(bs, mem, cap) && s <= |bs| && forall j | 0 <= j < s :: bs[j].SpaceLen(cap) == 0
    ensures Free(bs, mem) == Free(bs, mem, s)
    decreases s
  {
    if s > 0 {
      NoFree(bs, mem, cap, s - 1);
      FreeSize(bs[s - 1], mem, cap);
      assert Free(bs, mem, s - 1) == bs[s - 1].FreeBytes(mem) + Free(bs, mem, s);
    }
  }

  /** Data and free space account for every byte behind the first data byte. */
  lemma {:induction false} SizesFrom(bs: seq<Block>, mem: Mem, end: nat, cap: nat, i: nat)
    requires WellFormed(bs, end, cap) && Backed(bs, mem, cap) && i <= |bs|
    ensures var drained := if i == 0 && bs != [] then bs[0].offset else 0;
            |Data(bs, mem, i)| + |Free(bs, mem, i)| == (|bs| - i) * cap - drained
    decreases |bs| - i
  {
    if i < |bs| {
      hide Block.FreeBytes;
      hide Block.DataBytes;
      SizesFrom(bs, mem, end, cap, i + 1);
      FreeSize(bs[i], mem, cap);
      assert (|bs| - i) * cap == (|bs| - (i + 1)) * cap + cap;
    }
  }

  /** The data is empty exactly if the boundary is in an empty first block. */
  lemma EndOfEmpty(bs: seq<Block>, mem: Mem, end: nat, cap: nat)
    requires WellFormed(bs, end, cap) && Backed(bs, mem, cap) && bs != []
    ensures Data(bs, mem) == [] <==> end == 0 && bs[0].len == 0
    ensures bs[0].len == 0 ==> Data(bs, mem) == []
  {
    if end == 0 {
      NoData(bs, mem, 1);
    } else {
      assert bs[0].SpaceLen(cap) == 0 && bs[0].len > 0;
    }
  }

  // --------------------------------------------------------------- filling a block

  function Fill(b: Block, k: nat): Block {
    b.(len := b.len + k)
  }

  /** The first `k` free bytes have become the last data bytes. */
  ghost predicate Moved(d: seq<Byte>, f: seq<Byte>, d': seq<Byte>, f': seq<Byte>, k: nat) {
    k <= |f| && d' == d + f[..k] && f' == f[k..]
  }

  lemma MovedSize(d: seq<Byte>, f: seq<Byte>)
    ensures forall d', f', k {:trigger Moved(d, f, d', f', k)} :: Moved(d, f, d', f', k) ==> |d'| == |d| + k
  {
  }

  lemma MovedTrans(d: seq<Byte>, f: seq<Byte>, d1: seq<Byte>, f1: seq<Byte>, d2: seq<Byte>, f2: seq<Byte>, j: nat,
                   k: nat)
    requires Moved(d, f, d1, f1, j) && Moved(d1, f1, d2, f2, k)
    ensures Moved(d, f, d2, f2, j + k)
  {
    assert (d + f[..j]) + f[j..][..k] == d + f[..j + k];
    assert f[j..][k..] == f[j + k..];
  }

  lemma MovedBehind(a: seq<Byte>, d: seq<Byte>, f: seq<Byte>, d': seq<Byte>, f': seq<Byte>, k: nat)
    requires Moved(d, f, d', f', k)
    ensures Moved(a + d, f, a + d', f', k)
  {
    Associate(a, d, f[..k]);
  }

  lemma {:induction false} FillHere(bs: seq<Block>, mem: Mem, cap: nat, s: nat, k: nat)
    requires Backed(bs, mem, cap) && s < |bs| && k <= bs[s].SpaceLen(cap) && forall j | s < j < |bs| :: bs[j].len == 0
    ensures var cs := bs[s := Fill(bs[s], k)];
            Moved(Data(bs, mem, s), Free(bs, mem, s), Data(cs, mem, s), Free(cs, mem, s), k)
  {
    var cs := bs[s := Fill(bs[s], k)];
    NoData(bs, mem, s + 1);
    SameTail(bs, cs, mem, s + 1);
    FillBlock(bs[s], mem, cap, k, Free(bs, mem, s + 1));
    assert Data(cs, mem, s) == cs[s].DataBytes(mem) && Data(bs, mem, s) == bs[s].DataBytes(mem);
    hide Backed;
    hide Block.DataBytes;
    hide Block.FreeBytes;
  }

  lemma {:induction false} SkipFull(bs: seq<Block>, mem: Mem, cap: nat, i: nat)
    requires i < |bs| && bs[i].addr in mem && |mem[bs[i].addr]| == cap && bs[i].SpaceLen(cap) == 0
    ensures Free(bs, mem, i) == Free(bs, mem, i + 1) && Data(bs, mem, i) == bs[i].DataBytes(mem) + Data(bs, mem, i + 1)
  {
    assert bs[i].FreeBytes(mem) == [];
  }

  /**
   Committing `k` bytes into the first block with space appends exactly the first `k`
   free bytes to the data, in order, and takes them out of the free space.
   */
  lemma {:induction false} FillStep(bs: seq<Block>, mem: Mem, cap: nat, i: nat, s: nat, k: nat)
    requires Backed(bs, mem, cap) && i <= s < |bs| && k <= bs[s].SpaceLen(cap)
    requires forall j | i <= j < s :: bs[j].SpaceLen(cap) == 0
    requires forall j | s < j < |bs| :: bs[j].len == 0
    ensures var cs := bs[s := Fill(bs[s], k)];
            Moved(Data(bs, mem, i), Free(bs, mem, i), Data(cs, mem, i), Free(cs, mem, i), k)
    decreases s - i
  {
    hide Moved;
    var cs := bs[s := Fill(bs[s], k)];
    if i == s {
      FillHere(bs, mem, cap, s, k);
    } else {
      FillStep(bs, mem, cap, i + 1, s, k);
      SkipFull(bs, mem, cap, i);
      SkipFull(cs, mem, cap, i);
      MovedBehind(bs[i].DataBytes(mem), Data(bs, mem, i + 1), Free(bs, mem, i + 1), Data(cs, mem, i + 1),
                  Free(cs, mem, i + 1), k);
    }
  }

  lemma FillBlock(b: Block, mem: Mem, cap: nat, k: nat, rest: seq<Byte>)
    requires b.addr in mem && |mem[b.addr]| == cap && k <= b.SpaceLen(cap)
    ensures Fill(b, k).DataBytes(mem) == b.DataBytes(mem) + (b.FreeBytes(mem) + rest)[..k]
    ensures Fill(b, k).FreeBytes(mem) + rest == (b.FreeBytes(mem) + rest)[k..]
  {
  }

  /** The free space starts at the boundary. */
  lemma {:induction false} NoFreeBefore(bs: seq<Block>, mem: Mem, end: nat, cap: nat)
    requires WellFormed(bs, end, cap) && Backed(bs, mem, cap)
    ensures SpaceStart(bs, end, cap) <= |bs| && Free(bs, mem) == Free(bs, mem, SpaceStart(bs, end, cap))
  {
    NoFree(bs, mem, cap, SpaceStart(bs, end, cap));
  }

  lemma FillShape(bs: seq<Block>, end: nat, cap: nat, n: nat)
    requires WellFormed(bs, end, cap) && SpaceStart(bs, end, cap) < |bs| && n > 0
    ensures var s := SpaceStart(bs, end, cap);
            var k := Min(n, bs[s].SpaceLen(cap));
            var cs := bs[s := Fill(bs[s], k)];
            && 0 < k <= bs[s].SpaceLen(cap) && WellFormed(cs, s, cap) && (k < n ==> SpaceStart(cs, s, cap) == s + 1)
            && (forall j | 0 <= j < s :: bs[j].SpaceLen(cap) == 0) && (forall j | s < j < |bs| :: bs[j].len == 0)
  {
  }

  /** One turn of a commit: the first block with space takes what it can of `n` bytes. */
  lemma {:induction false} FillLaw(bs: seq<Block>, mem: Mem, end: nat, cap: nat, n: nat)
    returns (s: nat, k: nat, cs: seq<Block>)
    requires WellFormed(bs, end, cap) && Backed(bs, mem, cap) && 0 < n <= |Free(bs, mem)|
    ensures s == SpaceStart(bs, end, cap) < |bs| && bs[s].SpaceLen(cap) > 0 && k == Min(n, bs[s].SpaceLen(cap))
    ensures cs == bs[s := Fill(bs[s], k)] && WellFormed(cs, s, cap)
    ensures Moved(Data(bs, mem), Free(bs, mem), Data(cs, mem), Free(cs, mem), k)
    ensures k < n ==> SpaceStart(cs, s, cap) == s + 1
  {
    hide WellFormed;
    hide Backed;
    hide Moved;
    NoFreeBefore(bs, mem, end, cap);
    s := SpaceStart(bs, end, cap);
    FillShape(bs, end, cap, n);
    k := Min(n, bs[s].SpaceLen(cap));
    cs := bs[s := Fill(bs[s], k)];
    FillStep(bs, mem, cap, 0, s, k);
  }

  // -------------------------------------------------------------- draining a block

  function Drain(b: Block, k: nat): Block
    requires k <= b.len
  {
    b.(offset := b.offset + k, len := b.len - k)
  }

  /** A block with neither data nor space left. */
  predicate UsedUp(b: Block, cap: nat) {
    b.len == 0 && b.SpaceLen(cap) == 0
  }

  /** The chain after `k` data bytes of its first block are used up; an exhausted block is pruned. */
  function DrainFront(bs: seq<Block>, k: nat, cap: nat): seq<Block>
    requires bs != [] && k <= bs[0].len
  {
    if UsedUp(Drain(bs[0], k), cap) then bs[1..] else bs[0 := Drain(bs[0], k)]
  }

  /** The position of the end block after such a step. */
  function DrainEnd(bs: seq<Block>, end: nat, k: nat, cap: nat): nat
    requires bs != [] && k <= bs[0].len
  {
    if UsedUp(Drain(bs[0], k), cap) && end > 0 then end - 1 else end
  }

  lemma DropFront(a: seq<Byte>, b: seq<Byte>, k: nat)
    requires k <= |a|
    ensures (a + b)[k..] == a[k..] + b
  {
  }

  lemma DrainBlock(b: Block, mem: Mem, k: nat, cap: nat)
    requires b.addr in mem && |mem[b.addr]| == cap && b.SpaceLen(cap) >= 0 && k <= b.len
    ensures k <= |b.DataBytes(mem)| && Drain(b, k).DataBytes(mem) == b.DataBytes(mem)[k..]
    ensures Drain(b, k).FreeBytes(mem) == b.FreeBytes(mem)
    ensures UsedUp(Drain(b, k), cap) ==> b.DataBytes(mem)[k..] == [] && b.FreeBytes(mem) == []
  {
  }

  /** Draining within the first block removes the first `k` data bytes and moves no free byte. */
  lemma {:induction false} DrainBytes(bs: seq<Block>, mem: Mem, k: nat, cap: nat)
    requires Backed(bs, mem, cap) && bs != [] && k <= bs[0].len && bs[0].SpaceLen(cap) >= 0
    ensures k <= |Data(bs, mem)|
    ensures Data(DrainFront(bs, k, cap), mem) == Data(bs, mem)[k..]
    ensures Free(DrainFront(bs, k, cap), mem) == Free(bs, mem)
  {
    hide Block.DataBytes;
    hide Block.FreeBytes;
    var cs := bs[0 := Drain(bs[0], k)];
    SameTail(bs, cs, mem, 1);
    DrainBlock(bs[0], mem, k, cap);
    DropFront(bs[0].DataBytes(mem), Data(bs, mem, 1), k);
    if UsedUp(cs[0], cap) {
      Shift(cs, mem, 1);
      assert cs[1..] == bs[1..];
      assert Data(cs, mem) == [] + Data(cs, mem, 1) && Free(cs, mem) == [] + Free(cs, mem, 1);
    }
  }

  lemma DrainShape(bs: seq<Block>, end: nat, k: nat, cap: nat)
    requires WellFormed(bs, end, cap) && bs != [] && 0 < k <= bs[0].len
    ensures WellFormed(DrainFront(bs, k, cap), DrainEnd(bs, end, k, cap), cap)
  {
  }

  /** Reserved spans survive a drain: they are still exactly the free space they were taken from. */
  lemma DrainSpans(spans: seq<Span>, bs: seq<Block>, end: nat, k: nat, cap: nat)
    requires WellFormed(bs, end, cap) && bs != [] && 0 < k <= bs[0].len
    requires SpansFit(spans, bs, SpaceStart(bs, end, cap), cap)
    ensures var cs := DrainFront(bs, k, cap);
            SpansFit(spans, cs, SpaceStart(cs, DrainEnd(bs, end, k, cap), cap), cap)
  {
    var cs, end' := DrainFront(bs, k, cap), DrainEnd(bs, end, k, cap);
    var s, t := SpaceStart(bs, end, cap), SpaceStart(cs, end', cap);
    if UsedUp(Drain(bs[0], k), cap) {
      assert s == t + 1 && forall i | 0 <= i < |cs| :: cs[i] == bs[i + 1];
    } else {
      assert s == t;
    }
  }

  /** An emptied chain may start over at the front of its first block. */
  lemma ResetLaw(bs: seq<Block>, mem: Mem, end: nat, cap: nat)
    requires WellFormed(bs, end, cap) && Backed(bs, mem, cap) && bs != [] && Data(bs, mem) == []
    ensures var cs := bs[0 := bs[0].(offset := 0)];
            end == 0 && WellFormed(cs, 0, cap) && Data(cs, mem) == []
  {
    EndOfEmpty(bs, mem, end, cap);
    NoData(bs[0 := bs[0].(offset := 0)], mem, 0);
  }

  // ------------------------------------------------------------- appending a block

  /** A block fresh from the pool adds its whole memory to the back of the free space. */
  lemma {:induction false} AppendStep(bs: seq<Block>, mem: Mem, a: Addr, i: nat)
    requires i <= |bs| && a in mem
    ensures Data(bs + [Block(a, 0, 0)], mem, i) == Data(bs, mem, i)
    ensures Free(bs + [Block(a, 0, 0)], mem, i) == Free(bs, mem, i) + mem[a]
    decreases |bs| - i
  {
    var c := Block(a, 0, 0);
    assert c.DataBytes(mem) == [] && c.FreeBytes(mem) == mem[a];
    if i == |bs| {
      assert (bs + [c])[i] == c;
      assert Data(bs + [c], mem, i + 1) == [] && Free(bs + [c], mem, i + 1) == [];
    } else {
      AppendStep(bs, mem, a, i + 1);
      assert (bs + [c])[i] == bs[i];
      Associate(bs[i].FreeBytes(mem), Free(bs, mem, i + 1), mem[a]);
    }
  }

  lemma AppendShape(bs: seq<Block>, end: nat, cap: nat, a: Addr)
    requires WellFormed(bs, end, cap)
    ensures WellFormed(bs + [Block(a, 0, 0)], end, cap)
    ensures SpaceStart(bs + [Block(a, 0, 0)], end, cap) == SpaceStart(bs, end, cap)
  {
  }

  // ------------------------------------------------------------------- reserving

  /** A reservation grows by up to `n` bytes of the free space of the next block. */
  lemma SpanLaw(spans: seq<Span>, bs: seq<Block>, end: nat, cap: nat, n: nat) returns (b: Block, x: Span)
    requires WellFormed(bs, end, cap) && SpansFit(spans, bs, SpaceStart(bs, end, cap), cap) && n > 0
    requires Full(spans, bs, SpaceStart(bs, end, cap), cap) && SpaceStart(bs, end, cap) + |spans| < |bs|
    ensures b == bs[SpaceStart(bs, end, cap) + |spans|] && b.SpaceLen(cap) > 0
    ensures x == Span(b.addr, b.offset + b.len, Min(n, b.SpaceLen(cap)))
    ensures SpansFit(spans + [x], bs, SpaceStart(bs, end, cap), cap)
    ensures x.len == b.SpaceLen(cap) ==> Full(spans + [x], bs, SpaceStart(bs, end, cap), cap)
  {
    b := bs[SpaceStart(bs, end, cap) + |spans|];
    x := Span(b.addr, b.offset + b.len, Min(n, b.SpaceLen(cap)));
  }

  lemma FreeUnfold(bs: seq<Block>, mem: Mem, i: nat)
    requires i < |bs|
    ensures |Free(bs, mem, i)| == |bs[i].FreeBytes(mem)| + |Free(bs, mem, i + 1)|
  {
  }

  lemma FreeSize(b: Block, mem: Mem, cap: nat)
    requires b.addr in mem && |mem[b.addr]| == cap && b.SpaceLen(cap) >= 0
    ensures |b.FreeBytes(mem)| == b.SpaceLen(cap) && |b.DataBytes(mem)| == b.len
  {
  }

  /** Span `j` and its block. */
  lemma SpanFact(spans: seq<Span>, bs: seq<Block>, mem: Mem, s: nat, cap: nat, j: nat) returns (t: nat)
    requires Backed(bs, mem, cap) && SpansFit(spans, bs, s, cap) && j < |spans|
    ensures t == s + j < |bs| && bs[t].addr in mem && |mem[bs[t].addr]| == cap
    ensures spans[j].block == bs[t].addr && spans[j].start == bs[t].offset + bs[t].len
    ensures 0 < spans[j].len <= bs[t].SpaceLen(cap) && (j < |spans| - 1 ==> spans[j].len == bs[t].SpaceLen(cap))
  {
    t := s + j;
    assert spans[j].block == bs[t].addr;
  }

  /** Where the spans lie in the free space: one after the other from its start. */
  lemma {:induction false} SpanPosition(spans: seq<Span>, bs: seq<Block>, mem: Mem, s: nat, cap: nat, j: nat)
    returns (t: nat)
    requires Backed(bs, mem, cap) && SpansFit(spans, bs, s, cap) && j < |spans|
    ensures t == s + j < |bs| && TotalTo(spans, j) + |Free(bs, mem, t)| == |Free(bs, mem, s)|
    ensures spans[j].len <= bs[t].SpaceLen(cap) && spans[j].len <= |Free(bs, mem, t)|
  {
    hide SpansFit;
    hide Backed;
    hide Block.FreeBytes;
    if j == 0 {
      t := SpanFact(spans, bs, mem, s, cap, 0);
    } else {
      var p := SpanPosition(spans, bs, mem, s, cap, j - 1);
      var q := SpanFact(spans, bs, mem, s, cap, j - 1);
      FreeSize(bs[p], mem, cap);
      FreeUnfold(bs, mem, p);
      t := p + 1;
      q := SpanFact(spans, bs, mem, s, cap, j);
    }
    FreeSize(bs[t], mem, cap);
    FreeUnfold(bs, mem, t);
  }

  /** A reservation never covers more than the free space. */
  lemma {:induction false} TotalFits(spans: seq<Span>, bs: seq<Block>, mem: Mem, end: nat, cap: nat)
    requires WellFormed(bs, end, cap) && Backed(bs, mem, cap)
    requires SpansFit(spans, bs, SpaceStart(bs, end, cap), cap)
    ensures Total(spans) <= |Free(bs, mem)|
  {
    hide WellFormed;
    hide SpansFit;
    hide Backed;
    if spans != [] {
      var s := SpaceStart(bs, end, cap);
      NoFreeBefore(bs, mem, end, cap);
      var t := SpanPosition(spans, bs, mem, s, cap, |spans| - 1);
    }
  }

  // --------------------------------------------------------- writing reserved memory

  /** `m` with the bytes from position `at` on overwritten by `b`. */
  function Overlay(m: seq<Byte>, at: nat, b: seq<Byte>): (r: seq<Byte>)
    requires at + |b| <= |m|
    ensures |r| == |m|
  {
    m[..at] + b + m[at + |b|..]
  }

  /** The memory after `b` has been written into block `a` from position `at` on. */
  function Write(mem: Mem, a: Addr, at: nat, b: seq<Byte>): Mem {
    if a in mem && at + |b| <= |mem[a]| then mem[a := Overlay(mem[a], at, b)] else mem
  }

  /** The memory after `b` has been written to the start of block `x`'s free space. */
  function Store(mem: Mem, x: Block, b: seq<Byte>): Mem {
    Write(mem, x.addr, x.offset + x.len, b)
  }

  lemma SameBlock(x: Block, mem: Mem, mem': Mem)
    requires (x.addr in mem <==> x.addr in mem') && (x.addr in mem ==> mem[x.addr] == mem'[x.addr])
    ensures x.DataBytes(mem') == x.DataBytes(mem)
  {
  }

  lemma StoreBlock(x: Block, mem: Mem, b: seq<Byte>, rest: seq<Byte>)
    requires x.addr in mem && x.offset + x.len + |b| <= |mem[x.addr]|
    ensures x.DataBytes(Store(mem, x, b)) == x.DataBytes(mem)
    ensures x.FreeBytes(Store(mem, x, b)) + rest == b + (x.FreeBytes(mem) + rest)[|b|..]
  {
  }

  /** Writing into the free space of block `t` changes no data byte. */
  lemma {:induction false} StoreData(bs: seq<Block>, mem: Mem, mem': Mem, t: nat, b: seq<Byte>, i: nat)
    requires t < |bs| && bs[t].addr in mem && bs[t].offset + bs[t].len + |b| <= |mem[bs[t].addr]|
    requires forall j | 0 <= j < |bs| && j != t :: bs[j].addr != bs[t].addr
    requires mem' == Store(mem, bs[t], b)
    ensures Data(bs, mem', i) == Data(bs, mem, i)
    decreases |bs| - i
  {
    if i < |bs| {
      StoreData(bs, mem, mem', t, b, i + 1);
      if i == t {
        StoreBlock(bs[t], mem, b, []);
      } else {
        SameBlock(bs[i], mem, mem');
      }
      assert bs[i].DataBytes(mem') == bs[i].DataBytes(mem);
      hide Block.DataBytes;
      hide Store;
    }
  }

  /** The writable bytes of the blocks from `i` up to `t`. */
  function FreeTo(bs: seq<Block>, mem: Mem, i: nat, t: nat): seq<Byte>
    decreases t - i
  {
    if i >= t || i >= |bs| then [] else bs[i].FreeBytes(mem) + FreeTo(bs, mem, i + 1, t)
  }

  lemma {:induction false} FreeCut(bs: seq<Block>, mem: Mem, i: nat, t: nat)
    requires i <= t <= |bs|
    ensures Free(bs, mem, i) == FreeTo(bs, mem, i, t) + Free(bs, mem, t)
    decreases t - i
  {
    if i < t {
      FreeCut(bs, mem, i + 1, t);
      Associate(bs[i].FreeBytes(mem), FreeTo(bs, mem, i + 1, t), Free(bs, mem, t));
    }
  }

  lemma {:induction false} FreeToSame(bs: seq<Block>, mem: Mem, a: Addr, m: seq<Byte>, i: nat, t: nat)
    requires forall j | i <= j < t && j < |bs| :: bs[j].addr != a
    ensures FreeTo(bs, mem[a := m], i, t) == FreeTo(bs, mem, i, t)
    decreases t - i
  {
    if i < t && i < |bs| {
      FreeToSame(bs, mem, a, m, i + 1, t);
    }
  }

  /** It changes those free bytes, which lie behind the free bytes of the earlier blocks. */
  lemma {:induction false} StoreFree(bs: seq<Block>, mem: Mem, mem': Mem, t: nat, b: seq<Byte>)
    requires t < |bs| && bs[t].addr in mem && bs[t].offset + bs[t].len + |b| <= |mem[bs[t].addr]|
    requires forall j | 0 <= j < |bs| && j != t :: bs[j].addr != bs[t].addr && bs[j].addr in mem
    requires mem' == Store(mem, bs[t], b) && |b| <= |Free(bs, mem, t)|
    ensures Free(bs, mem) == FreeTo(bs, mem, 0, t) + Free(bs, mem, t)
    ensures Free(bs, mem') == FreeTo(bs, mem, 0, t) + (b + Free(bs, mem, t)[|b|..])
  {
    FreeCut(bs, mem, 0, t);
    FreeCut(bs, mem', 0, t);
    FreeToSame(bs, mem, bs[t].addr, mem'[bs[t].addr], 0, t);
    StoreTail(bs, mem, mem', t, b);
  }

  lemma {:induction false} StoreTail(bs: seq<Block>, mem: Mem, mem': Mem, t: nat, b: seq<Byte>)
    requires t < |bs| && bs[t].addr in mem && bs[t].offset + bs[t].len + |b| <= |mem[bs[t].addr]|
    requires forall j | 0 <= j < |bs| && j != t :: bs[j].addr != bs[t].addr && bs[j].addr in mem
    requires mem' == Store(mem, bs[t], b) && |b| <= |Free(bs, mem, t)|
    ensures Free(bs, mem', t) == b + Free(bs, mem, t)[|b|..]
  {
    SameMem(bs, mem, mem', t + 1);
    StoreBlock(bs[t], mem, b, Free(bs, mem, t + 1));
  }

  lemma Associate(a: seq<Byte>, b: seq<Byte>, c: seq<Byte>)
    ensures a + (b + c) == (a + b) + c
  {
  }
}
