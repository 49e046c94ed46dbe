/**
 Reading strings and lists of strings back out of WASM memory, from any pointer, and the
 round trip with the writer.
 */
module WasmDeserializer {
  import opened WasmMemory
  import opened WasmSerializer

  /** What the reader makes of a string: one that starts with a NUL reads as empty. */
  function Visible(s: Text): Text {
    if s != [] && s[0] == 0 then [] else s
  }

  /** The string whose struct is at `p`, empty if struct or bytes are not within the memory. */
  function StringAt(m: Text, p: nat): Text {
    if p + 8 > |m| then []
    else
      var (a, n) := (Uint32(m, p), Uint32(m, p + 4));
      if a + n > |m| then [] else Visible(m[a..a + n])
  }

  /** The first `k` strings behind a pointer array at `a`. */
  function Entries(m: Text, a: nat, k: nat): seq<Text> {
    if k == 0 then [] else Entries(m, a, k - 1) + [StringAt(m, Uint32(m, a + 4 * (k - 1)))]
  }

  /** The list whose struct is at `p`; an unreadable one empties what was read before. */
  function ListAt(m: Text, p: nat, before: seq<Text>): seq<Text> {
    if p + 8 > |m| then []
    else
      var (a, n) := (Uint32(m, p), Uint32(m, p + 4));
      if Last32(a, n) >= |m| || (n > 0 && a + 4 * n > |m|) then [] else before + Entries(m, a, n)
  }

  /** What a string object holds without a buffer of its own. */
  const INLINE: nat := 15

  /** The room reserved for `n` bytes and a terminator; their number is a `uint32_t` and wraps around. */
  function Room(n: nat): nat {
    if (n + 1) % WORD < INLINE then INLINE else (n + 1) % WORD
  }

  /** The struct at `p` has the one length for which the room wraps around, and that many bytes are there. */
  predicate Overruns(m: Text, p: nat) {
    p + 8 <= |m| && Uint32(m, p + 4) == UINT32_MAX && Uint32(m, p) + UINT32_MAX <= |m|
  }

  /** One of the first `k` pointers at `a` that lie within the memory leads to such a struct. */
  predicate EntryOverruns(m: Text, a: nat, k: nat) {
    exists j: nat | j < k :: a + 4 * j + 4 <= |m| && Overruns(m, Uint32(m, a + 4 * j))
  }

  predicate ListOverruns(m: Text, p: nat) {
    && p + 8 <= |m|
    && Last32(Uint32(m, p), Uint32(m, p + 4)) < |m|
    && EntryOverruns(m, Uint32(m, p), Uint32(m, p + 4))
  }

  /** No memory of less than 4 GiB minus one byte has one, whatever is in it. */
  lemma SafeBelow(m: Text, p: nat)
    requires |m| < UINT32_MAX
    ensures !Overruns(m, p) && !ListOverruns(m, p)
  {
  }

  /** A memory of 4 GiB can. */
  lemma OverrunWitness() returns (m: Text)
    ensures |m| == WORD && Overruns(m, 0)
  {
    var z: Text := LE32(0) + LE32(UINT32_MAX);
    m := z + seq(WORD - 8, i => 1);
    assert m[0..8] == z;
    StructRead(m, 0, 0, UINT32_MAX);
  }

  // --------------------------------------------------------------------- the methods

  /** Reads into a buffer that starts out as an empty C string. */
  method ReadRawString(mem: array<Octet>, offset: nat, n: nat) returns (buf: Text)
    requires offset < SIZE_T && n < SIZE_T / 2 && mem.Length <= WORD
    ensures n > 0 && offset + n <= mem.Length ==> buf == mem[offset..offset + n]
    ensures n == 0 || offset + n > mem.Length ==> buf != [] && buf[0] == 0
    ensures n == 0 || (offset + n > mem.Length && offset + n <= SIZE_T) ==> |buf| == 1
  {
    buf := [0];
    LastLaw(offset, n);
    if Last64(offset, n) >= mem.Length {
      return;
    }
    var i := 0;
    while i < n
      invariant i <= n && (i == 0 ==> buf == [0])
      invariant i > 0 ==> |buf| == i
      invariant i > 0 ==> if offset + n <= mem.Length then buf == mem[offset..offset + i] else buf[0] == 0
    {
      var byte := Uint8(mem[..], Add64(offset, i));
      buf := if i == 0 then [byte] else buf + [byte];
      i := i + 1;
    }
  }

  /** `safe` tells that the bytes read stay within the room reserved for them. */
  method ReadCustomString(mem: array<Octet>, p: nat) returns (out: Text, safe: bool)
    requires p < SIZE_T - 8 && mem.Length <= WORD
    ensures safe <==> !Overruns(mem[..], p)
    ensures safe ==> out == StringAt(mem[..], p)
  {
    hide Uint32;
    if Add64(p, 7) >= mem.Length {
      return [], true;
    }
    var a, n := Uint32(mem[..], p), Uint32(mem[..], p + 4);
    WordRange(mem[..], p);
    WordRange(mem[..], p + 4);
    if Last32(a, n) >= mem.Length {
      return [], true;
    }
    var buf := ReadRawString(mem, a, n);
    if |buf| > Room(n) {
      return [], false;
    }
    if buf[0] == 0 {
      return [], true;
    }
    return buf, true;
  }

  lemma WordRange(m: Text, p: nat)
    ensures Uint32(m, p) < WORD
  {
  }

  method ReadCustomListOfString(mem: array<Octet>, p: nat, before: seq<Text>) returns (out: seq<Text>, safe: bool)
    requires p < SIZE_T - 8 && mem.Length <= WORD
    ensures safe <==> !ListOverruns(mem[..], p)
    ensures safe ==> out == ListAt(mem[..], p, before)
  {
    hide StringAt;
    hide Overruns;
    hide Last32;
    hide Uint32;
    out, safe := before, true;
    if Add64(p, 7) >= mem.Length {
      return [], true;
    }
    var a, n := Uint32(mem[..], p), Uint32(mem[..], p + 4);
    WordRange(mem[..], p);
    WordRange(mem[..], p + 4);
    if Last32(a, n) >= mem.Length {
      return [], true;
    }
    var i := 0;
    while i < n
      invariant i <= n && out == before + Entries(mem[..], a, i) && (i > 0 ==> a + 4 * i <= mem.Length)
      invariant !EntryOverruns(mem[..], a, i)
    {
      if Add64(a + 4 * i, 3) >= mem.Length {
        return [], true;
      }
      var q := Uint32(mem[..], a + 4 * i);
      WordRange(mem[..], a + 4 * i);
      var str;
      str, safe := ReadCustomString(mem, q);
      if !safe {
        return [], false;
      }
      assert Entries(mem[..], a, i + 1) == Entries(mem[..], a, i) + [str];
      out := out + [str];
      i := i + 1;
    }
  }

  // ------------------------------------------------------------------- the round trip

  /** Wherever the bytes of a string lie, and wherever a struct that points to them, it is what is read. */
  lemma StringReads(m: Text, p: nat, a: nat, s: Text)
    requires |m| <= WORD && Holds(m, a, s) && Holds(m, p, LE32(a) + LE32(|s|)) && a < WORD && |s| < WORD
    ensures StringAt(m, p) == Visible(s)
  {
    hide Uint32;
    hide LE32;
    StructRead(m, p, a, |s|);
  }

  /** A struct or bytes outside the memory read as nothing. */
  lemma StringUnreadable(m: Text, p: nat, a: nat, n: nat)
    requires |m| <= WORD && a < WORD && n < WORD
    requires p + 8 > |m| || (Holds(m, p, LE32(a) + LE32(n)) && a + n > |m|)
    ensures StringAt(m, p) == []
  {
    hide Uint32;
    hide LE32;
    if p + 8 <= |m| {
      StructRead(m, p, a, n);
    }
  }

  /** A string that lies in memory as it was written reads back, up to a leading NUL. */
  lemma StringRoundTrip(m: Text, at: nat, s: Text)
    requires |m| <= WORD && Holds(m, at, StringImage(at, s))
    ensures StringAt(m, at + |s|) == Visible(s) && !Overruns(m, at + |s|)
  {
    hide Uint32;
    hide LE32;
    HoldsParts(m, at, s, LE32(at) + LE32(|s|));
    StructRead(m, at + |s|, at, |s|);
  }

  function VisibleTo(list: seq<Text>, k: nat): (r: seq<Text>)
    requires k <= |list|
    ensures |r| == k
  {
    if k == 0 then [] else VisibleTo(list, k - 1) + [Visible(list[k - 1])]
  }

  lemma {:induction false} StringsHeld(m: Text, at: nat, list: seq<Text>, k: nat, j: nat)
    requires j < k <= |list| && Holds(m, at, StringsTo(at, list, k))
    ensures Holds(m, at + SizeTo(list, j), StringImage(at + SizeTo(list, j), list[j]))
    decreases k
  {
    HoldsParts(m, at, StringsTo(at, list, k - 1), StringImage(at + SizeTo(list, k - 1), list[k - 1]));
    if j < k - 1 {
      StringsHeld(m, at, list, k - 1, j);
    }
  }

  lemma {:induction false} PointersHeld(m: Text, at: nat, list: seq<Text>, p: nat, k: nat, j: nat)
    requires j < k <= |list| && Holds(m, p, PointersTo(at, list, k))
    ensures Holds(m, p + 4 * j, LE32(StructAt(at, list, j)))
    decreases k
  {
    HoldsParts(m, p, PointersTo(at, list, k - 1), LE32(StructAt(at, list, k - 1)));
    if j < k - 1 {
      PointersHeld(m, at, list, p, k - 1, j);
    }
  }

  lemma {:induction false} EntryRead(m: Text, at: nat, list: seq<Text>, a: nat, j: nat)
    requires |m| <= WORD && j < |list| && Holds(m, at, StringsTo(at, list, |list|))
    requires Holds(m, a, PointersTo(at, list, |list|))
    ensures StringAt(m, Uint32(m, a + 4 * j)) == Visible(list[j]) && !Overruns(m, Uint32(m, a + 4 * j))
  {
    hide Uint32;
    hide LE32;
    StringsHeld(m, at, list, |list|, j);
    PointersHeld(m, at, list, a, |list|, j);
    WordRead(m, a + 4 * j, StructAt(at, list, j));
    StringRoundTrip(m, at + SizeTo(list, j), list[j]);
  }

  lemma {:induction false} EntriesRead(m: Text, at: nat, list: seq<Text>, a: nat, k: nat)
    requires |m| <= WORD && k <= |list| && Holds(m, at, StringsTo(at, list, |list|))
    requires Holds(m, a, PointersTo(at, list, |list|))
    ensures Entries(m, a, k) == VisibleTo(list, k) && !EntryOverruns(m, a, k)
    decreases k
  {
    hide Uint32;
    hide LE32;
    if k > 0 {
      EntriesRead(m, at, list, a, k - 1);
      EntryRead(m, at, list, a, k - 1);
    }
  }

  lemma HoldsThree(m: Text, at: nat, a: Text, b: Text, c: Text)
    requires Holds(m, at, a + b + c)
    ensures Holds(m, at, a) && Holds(m, at + |a|, b) && Holds(m, at + |a| + |b|, c) && at + |a| + |b| + |c| <= |m|
  {
    HoldsParts(m, at, a + b, c);
    HoldsParts(m, at, a, b);
  }

  lemma StructRead(m: Text, p: nat, a: nat, n: nat)
    requires |m| <= WORD && Holds(m, p, LE32(a) + LE32(n)) && a < WORD && n < WORD
    ensures Uint32(m, p) == a && Uint32(m, p + 4) == n && p + 8 <= |m|
  {
    hide LE32;
    hide Uint32;
    HoldsParts(m, p, LE32(a), LE32(n));
    WordRead(m, p, a);
    WordRead(m, p + 4, n);
  }

  /** An array of pointers in memory: what they lead to. */
  function Followed(m: Text, qs: seq<nat>, k: nat): seq<Text>
    requires k <= |qs|
  {
    if k == 0 then [] else Followed(m, qs, k - 1) + [StringAt(m, qs[k - 1])]
  }

  lemma {:induction false} EntriesFollow(m: Text, a: nat, qs: seq<nat>, k: nat)
    requires |m| <= WORD && k <= |qs|
    requires forall j | 0 <= j < |qs| :: qs[j] < WORD && Holds(m, a + 4 * j, LE32(qs[j]))
    ensures Entries(m, a, k) == Followed(m, qs, k)
  {
    hide Uint32;
    hide LE32;
    hide StringAt;
    if k > 0 {
      EntriesFollow(m, a, qs, k - 1);
      WordRead(m, a + 4 * (k - 1), qs[k - 1]);
    }
  }

  /**
   Wherever the pointers of a list lie, and wherever a struct that points to them, what they
   lead to is read, behind what was read before; but a list without strings whose pointer is
   not inside the memory counts as unreadable.
   */
  lemma {:induction false} ListReads(m: Text, p: nat, a: nat, qs: seq<nat>, before: seq<Text>)
    requires |m| <= WORD && a < WORD && |qs| < WORD && Holds(m, p, LE32(a) + LE32(|qs|))
    requires a + 4 * |qs| <= |m| && forall j | 0 <= j < |qs| :: qs[j] < WORD && Holds(m, a + 4 * j, LE32(qs[j]))
    ensures ListAt(m, p, before)
         == if qs == [] && a == 0 && |m| < WORD then [] else before + Followed(m, qs, |qs|)
  {
    hide Uint32;
    hide LE32;
    hide Last32;
    hide StringAt;
    StructRead(m, p, a, |qs|);
    LastWord(a, |qs|);
    EntriesFollow(m, a, qs, |qs|);
  }

  /** A pointer array that leaves the memory makes the whole list unreadable. */
  lemma ListUnreadable(m: Text, p: nat, a: nat, n: nat, before: seq<Text>)
    requires |m| <= WORD && a < WORD && 0 < n < WORD
    requires p + 8 > |m| || (Holds(m, p, LE32(a) + LE32(n)) && a + 4 * n > |m|)
    ensures ListAt(m, p, before) == []
  {
    hide Uint32;
    hide LE32;
    hide Last32;
    if p + 8 <= |m| {
      StructRead(m, p, a, n);
    }
  }

  /** A list that lies in memory as it was written reads back, each string up to a leading NUL. */
  lemma {:induction false} ListRoundTrip(m: Text, at: nat, list: seq<Text>)
    requires |m| <= WORD && Holds(m, at, ListImage(at, list))
    ensures ListAt(m, at + ListSize(list) - 8, []) == VisibleTo(list, |list|)
    ensures !ListOverruns(m, at + ListSize(list) - 8)
  {
    hide Holds;
    hide LE32;
    hide ListAt;
    var n := |list|;
    var a := at + SizeTo(list, n);
    var x, y, z := StringsTo(at, list, n), PointersTo(at, list, n), LE32(a) + LE32(n);
    ListImageParts(at, list);
    assert Holds(m, at, x + y + z);
    HoldsThree(m, at, x, y, z);
    ListFound(m, at, list, a);
  }

  lemma {:induction false} ListFound(m: Text, at: nat, list: seq<Text>, a: nat)
    requires |m| <= WORD && a == at + SizeTo(list, |list|) && a + 4 * |list| + 8 <= |m|
    requires Holds(m, at, StringsTo(at, list, |list|)) && Holds(m, a, PointersTo(at, list, |list|))
    requires Holds(m, a + 4 * |list|, LE32(a) + LE32(|list|))
    ensures ListAt(m, a + 4 * |list|, []) == VisibleTo(list, |list|) && !ListOverruns(m, a + 4 * |list|)
  {
    hide LE32;
    hide Uint32;
    hide Holds;
    hide Last32;
    EntriesRead(m, at, list, a, |list|);
    StructRead(m, a + 4 * |list|, a, |list|);
    LastWord(a, |list|);
  }

  lemma {:induction false} ListImageParts(at: nat, list: seq<Text>)
    ensures ListImage(at, list)
         == StringsTo(at, list, |list|) + PointersTo(at, list, |list|)
            + (LE32(at + SizeTo(list, |list|)) + LE32(|list|))
  {
  }

  lemma LastWord(a: nat, n: nat)
    requires a + n <= WORD
    ensures Last32(a, n) == if a + n == 0 then WORD - 1 else a + n - 1
  {
  }

  /** The visible strings are the strings themselves exactly if none starts with a NUL. */
  lemma {:induction false} VisibleExact(list: seq<Text>, k: nat)
    requires k <= |list|
    ensures VisibleTo(list, k) == list[..k] <==> forall j | 0 <= j < k :: list[j] == [] || list[j][0] != 0
  {
    if k > 0 {
      VisibleExact(list, k - 1);
      assert list[..k] == list[..k - 1] + [list[k - 1]];
      assert VisibleTo(list, k)[k - 1] == Visible(list[k - 1]) && VisibleTo(list, k)[..k - 1] == VisibleTo(list, k - 1);
    }
  }
}
