/**
 Strings and lists of strings in the linear memory of a WASM module: little-endian words,
 the layout of the two kinds of objects, and what reading finds there.
 */
module WasmMemory {
  type Octet = x: nat | x < 256
  type Text = seq<Octet>

  const WORD: nat := 0x1_0000_0000
  const SIZE_T: nat := 0x1_0000_0000_0000_0000
  const UINT32_MAX: nat := WORD - 1

  /** Sums of `size_t` and of `uint32_t` values, and a predecessor, wrap around. */
  function Add64(a: nat, b: nat): nat {
    (a + b) % SIZE_T
  }

  function Last64(a: nat, n: nat): nat {
    (a + n + SIZE_T - 1) % SIZE_T
  }

  function Last32(a: nat, n: nat): nat {
    (a + n + WORD - 1) % WORD
  }

  // ----------------------------------------------------------------------- the layout

  function LE16(v: nat): (b: Text)
    ensures |b| == 2
  {
    [v % 256, v / 256 % 256]
  }

  function LE32(v: nat): (b: Text)
    ensures |b| == 4
  {
    LE16(v % 65536) + LE16(v / 65536 % 65536)
  }

  /** `m` with the bytes from `at` on replaced by `b`. */
  function Put(m: Text, at: nat, b: Text): (r: Text)
    ensures |r| == |m|
  {
    if at + |b| <= |m| then m[..at] + b + m[at + |b|..] else m
  }

  lemma PutPut(m: Text, at: nat, a: Text, b: Text)
    requires at + |a| + |b| <= |m|
    ensures Put(Put(m, at, a), at + |a|, b) == Put(m, at, a + b)
  {
  }

  /** A string at `at`: its bytes, then the struct with the pointer to them and their number. */
  function StringImage(at: nat, s: Text): (b: Text)
    ensures |b| == StringSize(s)
  {
    s + (LE32(at) + LE32(|s|))
  }

  function StringSize(s: Text): nat {
    |s| + 8
  }

  /** The strings of a list, one after the other, up to the `k`th. */
  function SizeTo(list: seq<Text>, k: nat): nat
    requires k <= |list|
  {
    if k == 0 then 0 else SizeTo(list, k - 1) + StringSize(list[k - 1])
  }

  function StringsTo(at: nat, list: seq<Text>, k: nat): (b: Text)
    requires k <= |list|
    ensures |b| == SizeTo(list, k)
  {
    if k == 0 then [] else StringsTo(at, list, k - 1) + StringImage(at + SizeTo(list, k - 1), list[k - 1])
  }

  /** The address of the `k`th string's struct. */
  function StructAt(at: nat, list: seq<Text>, k: nat): nat
    requires k < |list|
  {
    at + SizeTo(list, k) + |list[k]|
  }

  /** The array of pointers to those structs. */
  function PointersTo(at: nat, list: seq<Text>, k: nat): (b: Text)
    requires k <= |list|
    ensures |b| == 4 * k
  {
    if k == 0 then [] else PointersTo(at, list, k - 1) + LE32(StructAt(at, list, k - 1))
  }

  function ListSize(list: seq<Text>): nat {
    SizeTo(list, |list|) + 4 * |list| + 8
  }

  function ListImage(at: nat, list: seq<Text>): (b: Text)
    ensures |b| == ListSize(list)
  {
    StringsTo(at, list, |list|) + PointersTo(at, list, |list|)
      + (LE32(at + SizeTo(list, |list|)) + LE32(|list|))
  }

  // ------------------------------------------------------------------------ what reads

  function Uint8(m: Text, at: nat): Octet {
    if at >= |m| then 0 else m[at]
  }

  function Uint16(m: Text, at: nat): nat {
    if Add64(at, 1) >= |m| then 0 else Uint8(m, at) + 256 * Uint8(m, Add64(at, 1))
  }

  function Uint32(m: Text, at: nat): nat {
    if Add64(at, 3) >= |m| then 0 else Uint16(m, at) + 65536 * Uint16(m, Add64(at, 2))
  }

  /** `b` lies in `m` from `at` on. */
  predicate Holds(m: Text, at: nat, b: Text) {
    at + |b| <= |m| && m[at..at + |b|] == b
  }

  lemma WordRead(m: Text, at: nat, v: nat)
    requires Holds(m, at, LE32(v)) && v < WORD && |m| <= WORD
    ensures Uint32(m, at) == v
  {
    var b := m[at..at + 4];
    assert b == LE32(v);
    assert m[at] == b[0] && m[at + 1] == b[1] && m[at + 2] == b[2] && m[at + 3] == b[3];
  }

  lemma HoldsParts(m: Text, at: nat, a: Text, b: Text)
    ensures Holds(m, at, a + b) <==> Holds(m, at, a) && Holds(m, at + |a|, b)
  {
    if at + |a| + |b| <= |m| {
      var x := m[at..at + |a| + |b|];
      assert x[..|a|] == m[at..at + |a|] && x[|a|..] == m[at + |a|..at + |a| + |b|];
      assert (a + b)[..|a|] == a && (a + b)[|a|..] == b;
      assert x == x[..|a|] + x[|a|..];
    }
  }

  lemma PutHolds(m: Text, at: nat, b: Text)
    requires at + |b| <= |m|
    ensures Holds(Put(m, at, b), at, b)
  {
  }

  /** A write behind a region leaves it alone. */
  lemma PutKeeps(m: Text, at: nat, b: Text, p: nat, c: Text)
    requires Holds(m, p, c) && p + |c| <= at
    ensures Holds(Put(m, at, b), p, c)
  {
    if at + |b| <= |m| {
      assert Put(m, at, b)[p..p + |c|] == m[p..p + |c|];
    }
  }
}
