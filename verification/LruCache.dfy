/**
 The least-recently-used cache: a map from keys to values and list positions, and a list of
 keys in the order of their last access.  Both agree with a plain definition over the
 history of accesses.
 */
module LruCache {
  /** A node of the freshness list; `id` stands for the iterator that points to it. */
  datatype Node<K> = Node(id: nat, key: K)
  datatype Entry<V> = Entry(node: nat, value: V)
  datatype Access<K, V> = Setting(key: K, value: V) | Getting(key: K)

  // ---------------------------------------------------------------- the plain definition

  function Without<K(==)>(l: seq<K>, k: K): seq<K> {
    if l == [] then [] else if l[0] == k then Without(l[1..], k) else [l[0]] + Without(l[1..], k)
  }

  /** The distinct keys of a history, the last accessed first. */
  function Recent<K(==), V>(h: seq<Access<K, V>>): seq<K> {
    if h == [] then [] else [h[|h| - 1].key] + Without(Recent(h[..|h| - 1]), h[|h| - 1].key)
  }

  function Take<K>(l: seq<K>, n: nat): seq<K> {
    if |l| <= n then l else l[..n]
  }

  /** Whether `v` is the value the key was last set to. */
  predicate LastSet<K(==), V(==)>(h: seq<Access<K, V>>, k: K, v: V) {
    h != [] &&
    var a := h[|h| - 1];
    if a.Setting? && a.key == k then a.value == v else LastSet(h[..|h| - 1], k, v)
  }

  // ---------------------------------------------------------------------- about lists

  lemma {:induction false} WithoutMembers<K>(l: seq<K>, k: K)
    ensures k !in Without(l, k) && (forall x | x in Without(l, k) :: x in l)
    ensures forall x | x in l && x != k :: x in Without(l, k)
  {
    if l != [] {
      WithoutMembers(l[1..], k);
    }
  }

  lemma {:induction false} WithoutAbsent<K>(l: seq<K>, k: K)
    requires k !in l
    ensures Without(l, k) == l
  {
    if l != [] {
      WithoutAbsent(l[1..], k);
    }
  }

  predicate NoRepeat<K(==)>(l: seq<K>) {
    forall i, j | 0 <= i < j < |l| :: l[i] != l[j]
  }

  lemma {:induction false} WithoutNoRepeat<K>(l: seq<K>, k: K)
    requires NoRepeat(l)
    ensures NoRepeat(Without(l, k)) && |Without(l, k)| == if k in l then |l| - 1 else |l|
  {
    if l != [] {
      WithoutNoRepeat(l[1..], k);
      WithoutMembers(l[1..], k);
      assert forall j | 0 <= j < |l[1..]| :: l[1..][j] == l[j + 1];
      assert l[0] !in l[1..];
      if l[0] == k {
        WithoutAbsent(l[1..], k);
      }
    }
  }

  lemma {:induction false} RecentNoRepeat<K, V>(h: seq<Access<K, V>>)
    ensures NoRepeat(Recent(h))
  {
    if h != [] {
      var k := h[|h| - 1].key;
      RecentNoRepeat(h[..|h| - 1]);
      WithoutNoRepeat(Recent(h[..|h| - 1]), k);
      WithoutMembers(Recent(h[..|h| - 1]), k);
    }
  }

  /** Cutting off before or after taking a key out makes no difference to what is kept with one more slot. */
  lemma {:induction false} TakeWithout<K>(l: seq<K>, k: K, n: nat)
    requires NoRepeat(l)
    ensures Take(Without(Take(l, n + 1), k), n) == Take(Without(l, k), n)
    decreases |l|
  {
    if |l| > n + 1 {
      var m := l[..n + 1];
      assert l == m + l[n + 1..];
      WithoutAppend(m, l[n + 1..], k);
      WithoutNoRepeat(m, k);
    }
  }

  lemma {:induction false} WithoutAppend<K>(a: seq<K>, b: seq<K>, k: K)
    ensures Without(a + b, k) == Without(a, k) + Without(b, k)
  {
    if a == [] {
      assert a + b == b;
    } else {
      assert (a + b)[1..] == a[1..] + b;
      WithoutAppend(a[1..], b, k);
    }
  }

  /** The cache's step on its list is the plain definition's step on the history. */
  lemma TouchLaw<K, V>(h: seq<Access<K, V>>, a: Access<K, V>, cap: nat)
    requires cap > 0
    ensures Take([a.key] + Without(Take(Recent(h), cap), a.key), cap) == Take(Recent(h + [a]), cap)
  {
    RecentNoRepeat(h);
    TakeWithout(Recent(h), a.key, cap - 1);
    assert (h + [a])[..|h|] == h;
    TakeFirst(a.key, Without(Take(Recent(h), cap), a.key), cap);
    TakeFirst(a.key, Without(Recent(h), a.key), cap);
  }

  lemma TakeFirst<K>(k: K, l: seq<K>, n: nat)
    requires n > 0
    ensures Take([k] + l, n) == [k] + Take(l, n - 1)
  {
  }

  // ------------------------------------------------------------------------ the cache

  function KeysOf<K>(l: seq<Node<K>>): (r: seq<K>)
    ensures |r| == |l| && forall i | 0 <= i < |l| :: r[i] == l[i].key
  {
    if l == [] then [] else [l[0].key] + KeysOf(l[1..])
  }

  /** Erasing the node an iterator points to. */
  function EraseNode<K>(l: seq<Node<K>>, id: nat): seq<Node<K>> {
    if l == [] then [] else if l[0].id == id then l[1..] else [l[0]] + EraseNode(l[1..], id)
  }

  predicate Apart<K(==)>(x: Node<K>, y: Node<K>) {
    x.id != y.id && x.key != y.key
  }

  /** No key and no iterator occurs twice. */
  ghost predicate AllApart<K>(l: seq<Node<K>>) {
    forall i, j {:trigger Apart(l[i], l[j])} | 0 <= i < j < |l| :: Apart(l[i], l[j])
  }

  /** Every node is a key's, and that key's iterator points to it. */
  ghost predicate Pointed<K, V>(l: seq<Node<K>>, data: map<K, Entry<V>>, next: nat) {
    forall i | 0 <= i < |l| :: l[i].key in data && data[l[i].key].node == l[i].id && l[i].id < next
  }

  /** List and map hold the same keys. */
  ghost predicate Linked<K, V>(l: seq<Node<K>>, data: map<K, Entry<V>>, next: nat) {
    |data| == |l| && AllApart(l) && Pointed(l, data, next) && forall k | k in data :: k in KeysOf(l)
  }

  lemma ApartKeys<K>(l: seq<Node<K>>)
    requires AllApart(l)
    ensures NoRepeat(KeysOf(l))
  {
    forall i, j | 0 <= i < j < |l|
      ensures KeysOf(l)[i] != KeysOf(l)[j]
    {
      assert Apart(l[i], l[j]);
    }
  }

  /** An iterator takes exactly its node out of the list. */
  lemma {:induction false} EraseLaw<K>(l: seq<Node<K>>, p: nat)
    requires p < |l| && forall i | 0 <= i < p :: l[i].id != l[p].id
    ensures EraseNode(l, l[p].id) == l[..p] + l[p + 1..]
  {
    if p > 0 {
      EraseLaw(l[1..], p - 1);
      assert l[..p] + l[p + 1..] == [l[0]] + (l[1..][..p - 1] + l[1..][p..]);
    }
  }

  lemma {:induction false} WithoutAt<K>(l: seq<K>, p: nat)
    requires NoRepeat(l) && p < |l|
    ensures Without(l, l[p]) == l[..p] + l[p + 1..]
  {
    var t := l[1..];
    assert forall j | 0 <= j < |t| :: t[j] == l[j + 1];
    if p == 0 {
      assert l[0] !in t;
      WithoutAbsent(t, l[0]);
    } else {
      WithoutAt(t, p - 1);
      assert l[..p] + l[p + 1..] == [l[0]] + (t[..p - 1] + t[p..]);
    }
  }

  lemma EraseAt<K>(l: seq<Node<K>>, p: nat)
    requires AllApart(l) && p < |l|
    ensures EraseNode(l, l[p].id) == l[..p] + l[p + 1..]
  {
    assert forall i | 0 <= i < p :: Apart(l[i], l[p]);
    EraseLaw(l, p);
  }

  lemma DetachApart<K>(l: seq<Node<K>>, p: nat)
    requires AllApart(l) && p < |l|
    ensures AllApart(l[..p] + l[p + 1..])
  {
    var l' := l[..p] + l[p + 1..];
    forall i, j | 0 <= i < j < |l'|
      ensures Apart(l'[i], l'[j])
    {
      assert Apart(l[if i < p then i else i + 1], l[if j < p then j else j + 1]);
    }
  }

  lemma DetachPointed<K, V>(l: seq<Node<K>>, data: map<K, Entry<V>>, next: nat, p: nat)
    requires AllApart(l) && Pointed(l, data, next) && p < |l|
    ensures Pointed(l[..p] + l[p + 1..], data - {l[p].key}, next)
  {
    var l', data' := l[..p] + l[p + 1..], data - {l[p].key};
    forall i | 0 <= i < |l'|
      ensures l'[i].key in data' && data'[l'[i].key].node == l'[i].id && l'[i].id < next
    {
      assert if i < p then Apart(l[i], l[p]) else Apart(l[p], l[i + 1]);
    }
  }

  lemma {:induction false} DetachKeys<K>(l: seq<Node<K>>, p: nat)
    requires p < |l|
    ensures KeysOf(l[..p] + l[p + 1..]) == KeysOf(l)[..p] + KeysOf(l)[p + 1..]
    ensures KeysOf(l) == KeysOf(l)[..p] + [l[p].key] + KeysOf(l)[p + 1..]
  {
  }

  /** Taking out a node and its key. */
  lemma {:induction false} DetachLaw<K, V>(l: seq<Node<K>>, data: map<K, Entry<V>>, next: nat, p: nat)
    requires Linked(l, data, next) && p < |l|
    ensures Linked(l[..p] + l[p + 1..], data - {l[p].key}, next)
    ensures KeysOf(l[..p] + l[p + 1..]) == KeysOf(l)[..p] + KeysOf(l)[p + 1..]
  {
    assert l[p].key in data by {
      assert Pointed(l, data, next);
    }
    DetachApart(l, p);
    DetachPointed(l, data, next, p);
    DetachKeys(l, p);
    assert (data - {l[p].key}).Keys == data.Keys - {l[p].key};
  }

  lemma FrontApart<K>(l: seq<Node<K>>, x: Node<K>)
    requires AllApart(l) && forall i | 0 <= i < |l| :: Apart(x, l[i])
    ensures AllApart([x] + l)
  {
    var l' := [x] + l;
    forall i, j | 0 <= i < j < |l'|
      ensures Apart(l'[i], l'[j])
    {
      assert l'[j] == l[j - 1];
      assert i > 0 ==> Apart(l[i - 1], l[j - 1]);
    }
  }

  lemma FrontPointed<K, V>(l: seq<Node<K>>, data: map<K, Entry<V>>, next: nat, key: K, value: V)
    requires Pointed(l, data, next) && key !in data
    ensures Pointed([Node(next, key)] + l, data[key := Entry(next, value)], next + 1)
    ensures forall i | 0 <= i < |l| :: Apart(Node(next, key), l[i])
  {
    var l', data' := [Node(next, key)] + l, data[key := Entry(next, value)];
    forall i | 0 <= i < |l'|
      ensures l'[i].key in data' && data'[l'[i].key].node == l'[i].id && l'[i].id < next + 1
    {
      assert i > 0 ==> l'[i] == l[i - 1];
    }
  }

  /** A key that is not there goes to the front. */
  lemma {:induction false} FrontLaw<K, V>(l: seq<Node<K>>, data: map<K, Entry<V>>, next: nat, key: K, value: V)
    requires Linked(l, data, next) && key !in data
    ensures Linked([Node(next, key)] + l, data[key := Entry(next, value)], next + 1)
    ensures KeysOf([Node(next, key)] + l) == [key] + KeysOf(l)
  {
    hide AllApart;
    hide Pointed;
    FrontPointed(l, data, next, key, value);
    FrontApart(l, Node(next, key));
    assert ([Node(next, key)] + l)[1..] == l;
    assert data[key := Entry(next, value)].Keys == data.Keys + {key};
  }

  /** Where a key of the map is in the list. */
  lemma PositionOf<K, V>(l: seq<Node<K>>, data: map<K, Entry<V>>, next: nat, key: K) returns (p: nat)
    requires Linked(l, data, next) && key in data
    ensures p < |l| && l[p].key == key && l[p].id == data[key].node
  {
    assert key in KeysOf(l);
    p :| p < |l| && KeysOf(l)[p] == key;
  }

  /** Refreshing a key that is there. */
  lemma {:induction false} RefreshLaw<K, V>(l: seq<Node<K>>, data: map<K, Entry<V>>, next: nat, key: K, value: V)
    returns (l': seq<Node<K>>)
    requires Linked(l, data, next) && key in data
    ensures l' == EraseNode(l, data[key].node) && |l'| == |l| - 1
    ensures Linked([Node(next, key)] + l', data[key := Entry(next, value)], next + 1)
    ensures KeysOf([Node(next, key)] + l') == [key] + Without(KeysOf(l), key)
  {
    hide Linked;
    hide Without;
    hide EraseNode;
    var p := PositionOf(l, data, next, key);
    LinkedApart(l, data, next);
    EraseAt(l, p);
    DetachLaw(l, data, next, p);
    ApartKeys(l);
    WithoutAt(KeysOf(l), p);
    l' := l[..p] + l[p + 1..];
    FrontLaw(l', data - {key}, next, key, value);
    Rebind(data, key, Entry(next, value));
  }

  lemma LinkedApart<K, V>(l: seq<Node<K>>, data: map<K, Entry<V>>, next: nat)
    requires Linked(l, data, next)
    ensures AllApart(l)
  {
  }

  lemma Rebind<K, E>(data: map<K, E>, key: K, x: E)
    ensures (data - {key})[key := x] == data[key := x]
  {
  }

  /** Making room and putting a key that is not there in front. */
  lemma {:induction false} ReplaceLaw<K, V>(l: seq<Node<K>>, data: map<K, Entry<V>>, next: nat, key: K, value: V)
    requires Linked(l, data, next) && key !in data && l != []
    ensures var n := |l| - 1;
            && Linked([Node(next, key)] + l[..n], (data - {l[n].key})[key := Entry(next, value)], next + 1)
            && KeysOf([Node(next, key)] + l[..n]) == [key] + KeysOf(l)[..n]
  {
    var n := |l| - 1;
    DetachLaw(l, data, next, n);
    assert l[..n] + l[n + 1..] == l[..n] && KeysOf(l)[..n] + KeysOf(l)[n + 1..] == KeysOf(l)[..n];
    FrontLaw(l[..n], data - {l[n].key}, next, key, value);
  }

  /** Puts a key in front with its value, evicting the stalest one if the cache is full. */
  method InternalSet<K(==), V>(cap: nat, l: seq<Node<K>>, data: map<K, Entry<V>>, next: nat, key: K, value: V)
    returns (l': seq<Node<K>>, data': map<K, Entry<V>>)
    requires cap > 0 && Linked(l, data, next) && |l| <= cap
    ensures Linked(l', data', next + 1) && |l'| <= cap
    ensures KeysOf(l') == Take([key] + Without(KeysOf(l), key), cap)
    ensures key in data' && data'[key].value == value
    ensures forall k | k in data' && k != key :: k in data && data'[k].value == data[k].value
  {
    assert |data| == |l|;
    l', data' := l, data;
    if key in data {
      ghost var m := RefreshLaw(l, data, next, key, value);
    } else {
      KeysAbsent(l, data, next, key);
      if |data| == cap {
        ReplaceLaw(l, data, next, key, value);
      } else {
        FrontLaw(l, data, next, key, value);
      }
    }
    hide Linked;
    if key !in data' && |data'| == cap {
      data' := data' - {l'[|l'| - 1].key};
      l' := l'[..|l'| - 1];
    }
    if key in data' {
      l' := EraseNode(l', data'[key].node);
    }
    l' := [Node(next, key)] + l';
    data' := data'[key := Entry(next, value)];
  }

  lemma KeysAbsent<K, V>(l: seq<Node<K>>, data: map<K, Entry<V>>, next: nat, key: K)
    requires Linked(l, data, next) && key !in data
    ensures Without(KeysOf(l), key) == KeysOf(l)
  {
    WithoutAbsent(KeysOf(l), key);
  }

  /** Map and list agree with the history `h`: the freshest keys, each with the value it was last set to. */
  ghost predicate Agrees<K, V>(cap: nat, l: seq<Node<K>>, data: map<K, Entry<V>>, h: seq<Access<K, V>>) {
    KeysOf(l) == Take(Recent(h), cap) && forall k | k in data :: LastSet(h, k, data[k].value)
  }

  lemma {:induction false} AgreesNext<K, V>(cap: nat, l: seq<Node<K>>, data: map<K, Entry<V>>, l': seq<Node<K>>,
                                            data': map<K, Entry<V>>,
                                            h: seq<Access<K, V>>, a: Access<K, V>)
    requires cap > 0 && Agrees(cap, l, data, h) && KeysOf(l') == Take([a.key] + Without(KeysOf(l), a.key), cap)
    requires a.key in data'
    requires if a.Setting? then data'[a.key].value == a.value
             else a.key in data && data'[a.key].value == data[a.key].value
    requires forall k | k in data' && k != a.key :: k in data && data'[k].value == data[k].value
    ensures Agrees(cap, l', data', h + [a])
  {
    TouchLaw(h, a, cap);
    assert (h + [a])[..|h|] == h;
  }

  class LruCache<K(==), V(==)> {
    const capacity: nat
    var data: map<K, Entry<V>>
    var freshness: seq<Node<K>>
    var next: nat
    /** The accesses since the cache was last cleared. */
    ghost var history: seq<Access<K, V>>

    ghost predicate Valid()
      reads this
    {
      && capacity > 0 && |freshness| <= capacity
      && Linked(freshness, data, next) && Agrees(capacity, freshness, data, history)
    }

    constructor (capacity: nat)
      requires capacity > 0
      ensures Valid() && history == [] && this.capacity == capacity
    {
      this.capacity := capacity;
      data, freshness, next, history := map[], [], 0, [];
    }

    method Set(key: K, value: V)
      requires Valid()
      modifies this
      ensures Valid() && history == old(history) + [Setting(key, value)]
    {
      var l, d := InternalSet(capacity, freshness, data, next, key, value);
      AgreesNext(capacity, freshness, data, l, d, history, Setting(key, value));
      freshness, data, next, history := l, d, next + 1, history + [Setting(key, value)];
    }

    /** The value the key was last set to; the key becomes the freshest. */
    method Get(key: K) returns (value: V)
      requires Valid() && key in data
      modifies this
      ensures Valid() && history == old(history) + [Getting(key)] && LastSet(old(history), key, value)
    {
      value := data[key].value;
      var l, d := InternalSet(capacity, freshness, data, next, key, value);
      AgreesNext(capacity, freshness, data, l, d, history, Getting(key));
      freshness, data, next, history := l, d, next + 1, history + [Getting(key)];
    }

    /** A key is there exactly if it is one of the `capacity` most recently accessed ones. */
    method Contains(key: K) returns (r: bool)
      requires Valid()
      ensures r <==> key in Take(Recent(history), capacity)
    {
      r := key in data;
    }

    method Clear()
      requires Valid()
      modifies this
      ensures Valid() && history == []
    {
      data, freshness, history := map[], [], [];
    }
  }
}
