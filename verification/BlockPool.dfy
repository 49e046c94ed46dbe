/**
 The memory that holds the buffer blocks, and the freelist that recycles them.

 Block pointers are addresses; address 0 is the null pointer.  `nodes` holds the header of
 every live block and `mem` its bytes.  Reading or writing through a pointer requires that
 a block lives there, so every dereference in the buffer carries a proof that the pointer
 is neither null nor dangling.
 */
module BlockPool {
  import opened Bytes
  import opened BlockChain
  import opened Counting

  const NULL: Addr := 0

  /** The header of a block in memory. */
  datatype Node = Node(next: Addr, offset: nat, len: nat)

  type Nodes = map<Addr, Node>

  /** The freelist's own fields, and the lowest address never used so far. */
  datatype Head = Head(top: Addr, first: Addr, size: nat)

  function At(l: seq<Addr>, i: nat): Addr {
    if i < |l| then l[i] else NULL
  }

  /** `l` are the nodes of the null-terminated list starting at `first`, each once. */
  ghost predicate Linked(nodes: Nodes, first: Addr, l: seq<Addr>) {
    && first == At(l, 0)
    && (forall i | 0 <= i < |l| :: l[i] != NULL && l[i] in nodes)
    && (forall i {:trigger nodes[l[i]]} | 0 <= i < |l| :: nodes[l[i]].next == At(l, i + 1))
    && (forall i, j {:trigger Differ(l[i], l[j])} | 0 <= i < j < |l| :: Differ(l[i], l[j]))
  }

  /** Memory and freelist are in order; `free` are the recycled blocks. */
  ghost predicate PoolOk(h: Head, nodes: Nodes, mem: Mem, free: seq<Addr>, cap: nat) {
    && cap > 0 && h.top > 0
    && (forall a | a in nodes :: 0 < a < h.top && a in mem && |mem[a]| == cap)
    && Linked(nodes, h.first, free)
    && h.size == |free|
  }

  /**
   Memory changed only at blocks of `own` and at blocks that did not exist, and the blocks
   held afterwards, `own'`, come from there too.
   */
  ghost predicate Confined(nodes: Nodes, mem: Mem, nodes': Nodes, mem': Mem, own: set<Addr>, own': set<Addr>) {
    && (forall a | a in nodes && a !in own :: a in nodes' && nodes'[a] == nodes[a])
    && (forall a | a in nodes && a !in own && a in mem :: a in mem' && mem'[a] == mem[a])
    && (forall a | a in own' :: a in own || a !in nodes)
  }

  lemma ConfinedTrans(n0: Nodes, m0: Mem, n1: Nodes, m1: Mem, n2: Nodes, m2: Mem, x: set<Addr>, y: set<Addr>,
                      z: set<Addr>)
    requires Confined(n0, m0, n1, m1, x, y) && Confined(n1, m1, n2, m2, y, z)
    ensures Confined(n0, m0, n2, m2, x, z)
  {
  }

  /** The lists have no block in common. */
  ghost predicate Disjoint(chain: seq<Addr>, free: seq<Addr>) {
    forall i, j {:trigger Differ(chain[i], free[j])} | 0 <= i < |chain| && 0 <= j < |free| :: Differ(chain[i], free[j])
  }

  lemma FirstDiffers(nodes: Nodes, first: Addr, l: seq<Addr>)
    requires Linked(nodes, first, l) && l != []
    ensures l[0] !in l[1..]
  {
    forall j | 0 <= j < |l[1..]|
      ensures l[1..][j] != l[0]
    {
      assert Differ(l[0], l[j + 1]);
    }
  }

  // ------------------------------------------------------------- taking and returning

  /** The address `New` hands out: the top of the stack, or a block fresh from the system. */
  function NewAddr(h: Head): Addr {
    if h.first == NULL then h.top else h.first
  }

  function NewHead(h: Head, nodes: Nodes): Head {
    if h.first == NULL || h.first !in nodes then h.(top := h.top + 1)
    else h.(first := nodes[h.first].next, size := if h.size > 0 then h.size - 1 else 0)
  }

  /** Either way the block comes back with no link and no data. */
  function NewNodes(h: Head, nodes: Nodes): Nodes {
    nodes[NewAddr(h) := Node(NULL, 0, 0)]
  }

  /** The bytes of a fresh block are arbitrary (here zeros), those of a recycled one are left as they are. */
  function NewMem(h: Head, mem: Mem, cap: nat): Mem {
    if h.first == NULL then mem[h.top := seq(cap, _ => 0)] else mem
  }

  /** The recycled blocks left after a `New`. */
  ghost function Popped(free: seq<Addr>): seq<Addr> {
    if free == [] then [] else free[1..]
  }

  /** `New` hands out an empty block nobody else holds, and disturbs no other block. */
  lemma NewLaw(h: Head, nodes: Nodes, mem: Mem, free: seq<Addr>, cap: nat)
    requires PoolOk(h, nodes, mem, free, cap)
    ensures PoolOk(NewHead(h, nodes), NewNodes(h, nodes), NewMem(h, mem, cap), Popped(free), cap)
    ensures NewAddr(h) != NULL && NewAddr(h) !in Popped(free)
    ensures if free == [] then NewAddr(h) !in nodes else NewAddr(h) == free[0]
    ensures var n := NewNodes(h, nodes); NewAddr(h) in n && n[NewAddr(h)] == Node(NULL, 0, 0)
    ensures forall a | a in nodes :: a != NewAddr(h) ==> NewNodes(h, nodes)[a] == nodes[a]
    ensures forall a | a in nodes :: a in NewMem(h, mem, cap) && NewMem(h, mem, cap)[a] == mem[a]
  {
    if free != [] {
      FirstDiffers(nodes, h.first, free);
    }
  }

  /** `Delete` pushes the block on the stack. */
  function DeleteHead(h: Head, b: Addr): Head {
    h.(first := b, size := h.size + 1)
  }

  function DeleteNodes(h: Head, nodes: Nodes, b: Addr): Nodes {
    if b in nodes then nodes[b := nodes[b].(next := h.first)] else nodes
  }

  lemma DeleteLaw(h: Head, nodes: Nodes, mem: Mem, free: seq<Addr>, cap: nat, b: Addr)
    requires PoolOk(h, nodes, mem, free, cap) && b in nodes && b !in free
    ensures PoolOk(DeleteHead(h, b), DeleteNodes(h, nodes, b), mem, [b] + free, cap)
  {
  }

  /** Changing a block outside the freelist keeps the pool in order. */
  lemma WriteLaw(h: Head, nodes: Nodes, mem: Mem, free: seq<Addr>, cap: nat, b: Addr, n: Node)
    requires PoolOk(h, nodes, mem, free, cap) && b in nodes && b !in free
    ensures PoolOk(h, nodes[b := n], mem, free, cap)
  {
  }

  // ---------------------------------------------------------------------- the class

  /** The freelist shared by the buffers of the proxy, with the memory its blocks live in. */
  class Freelist {
    const cap: nat
    var h: Head
    var nodes: Nodes
    var mem: Mem
    ghost var free: seq<Addr>

    ghost predicate Valid()
      reads this
    {
      PoolOk(h, nodes, mem, free, cap)
    }

    constructor (cap: nat)
      requires cap > 0
      ensures Valid() && free == [] && this.cap == cap && nodes == map[]
    {
      this.cap := cap;
      h, nodes, mem, free := Head(1, NULL, 0), map[], map[], [];
    }

    /** Stores a new state. */
    method Update(h: Head, nodes: Nodes, mem: Mem, ghost free: seq<Addr>)
      modifies this
      ensures this.h == h && this.nodes == nodes && this.mem == mem && this.free == free
    {
      this.h, this.nodes, this.mem, this.free := h, nodes, mem, free;
    }

    /** Returns a whole chain at once, keeping its order. */
    method DeleteChain(first: Addr, ghost chain: seq<Addr>)
      requires Valid() && Linked(nodes, first, chain)
      requires Disjoint(chain, free)
      modifies this
      ensures Valid() && free == chain + old(free) && mem == old(mem)
      ensures nodes.Keys == old(nodes.Keys) && forall a | a in nodes && a !in chain :: nodes[a] == old(nodes)[a]
    {
      hide PoolOk;
      hide Disjoint;
      if first == NULL {
        return;
      }
      var ns := nodes;
      var count, last := 1, first;
      while ns[last].next != NULL
        invariant 1 <= count <= |chain| && last == chain[count - 1]
        decreases |chain| - count
      {
        last := ns[last].next;
        count := count + 1;
      }
      JoinLaw(h, ns, mem, free, cap, first, chain);
      nodes := ns[last := ns[last].(next := h.first)];
      h := h.(first := first, size := h.size + count);
      free := chain + free;
    }

    /** Gives every saved block, and no other block, back to the system. */
    method Clear()
      requires Valid()
      modifies this
      ensures Valid() && free == []
      ensures nodes.Keys == old(nodes.Keys) - Members(old(free))
    {
      var g, ns := h, nodes;
      ghost var l := free;
      while g.first != NULL
        invariant nodes == old(nodes) && mem == old(mem) && free == old(free) && PoolOk(g, ns, mem, l, cap)
        invariant ns.Keys - Members(l) == nodes.Keys - Members(free)
        decreases |l|
      {
        NewLaw(g, ns, mem, l, cap);
        MembersTail(g, ns, l);
        var b := NewAddr(g);
        g, ns := NewHead(g, ns), NewNodes(g, ns) - {b};
        l := l[1..];
      }
      assert ns.Keys == ns.Keys - Members(l);
      h, nodes, free := g, ns, [];
    }
  }

  ghost function Members(l: seq<Addr>): set<Addr> {
    set a | a in l
  }

  lemma MembersTail(h: Head, nodes: Nodes, l: seq<Addr>)
    requires Linked(nodes, h.first, l) && l != []
    ensures Members(l[1..]) == Members(l) - {l[0]}
  {
    FirstDiffers(nodes, h.first, l);
    assert l == [l[0]] + l[1..];
  }

  /** A chain whose last link is set to the head of the freelist is one longer freelist. */
  lemma JoinLaw(h: Head, nodes: Nodes, mem: Mem, free: seq<Addr>, cap: nat, first: Addr, chain: seq<Addr>)
    requires PoolOk(h, nodes, mem, free, cap) && Linked(nodes, first, chain) && chain != []
    requires Disjoint(chain, free)
    ensures var last := chain[|chain| - 1];
            PoolOk(h.(first := first, size := h.size + |chain|), nodes[last := nodes[last].(next := h.first)], mem,
                   chain + free, cap)
  {
    var last := chain[|chain| - 1];
    assert forall i | 0 <= i < |chain| - 1 :: Differ(chain[i], last);
    assert forall j | 0 <= j < |free| :: Differ(last, free[j]);
  }
}
