/**
 Writing strings and lists of strings into WASM memory, in place.  Sizes and offsets are
 `size_t` values; the bounds checks wrap around as the machine's do.
 */
module WasmSerializer {
  import opened WasmMemory

  lemma PutNone(m: Text, at: nat)
    ensures Put(m, at, []) == m
  {
  }

  lemma PutUnfit(m: Text, at: nat, b: Text)
    ensures at + |b| > |m| ==> Put(m, at, b) == m
  {
  }

  method WriteUint8(mem: array<Octet>, offset: nat, input: Octet) returns (ok: bool)
    modifies mem
    ensures ok == (offset < mem.Length)
    ensures mem[..] == Put(old(mem[..]), offset, [input])
  {
    if offset >= mem.Length {
      return false;
    }
    mem[offset] := input;
    return true;
  }

  method WriteUint16(mem: array<Octet>, offset: nat, input: nat) returns (ok: bool)
    requires offset < SIZE_T && mem.Length <= WORD
    modifies mem
    ensures ok == (offset + 2 <= mem.Length)
    ensures mem[..] == Put(old(mem[..]), offset, LE16(input))
  {
    hide Put;
    PutUnfit(mem[..], offset, LE16(input));
    PutUnfit(mem[..], offset, [input % 256]);
    if Add64(offset, 1) >= mem.Length {
      return false;
    }
    ok := WriteUint8(mem, offset, input % 256);
    if ok {
      PutPut(old(mem[..]), offset, [input % 256], [input / 256 % 256]);
      assert LE16(input) == [input % 256] + [input / 256 % 256];
      ok := WriteUint8(mem, Add64(offset, 1), input / 256 % 256);
    }
  }

  method WriteUint32(mem: array<Octet>, offset: nat, input: nat) returns (ok: bool)
    requires offset < SIZE_T && mem.Length <= WORD
    modifies mem
    ensures ok == (offset + 4 <= mem.Length)
    ensures mem[..] == Put(old(mem[..]), offset, LE32(input))
  {
    hide Put;
    hide LE16;
    PutUnfit(mem[..], offset, LE32(input));
    if Add64(offset, 3) >= mem.Length {
      return false;
    }
    var low, high := input % 65536, input / 65536 % 65536;
    PutUnfit(mem[..], offset, LE16(low));
    ok := WriteUint16(mem, offset, low);
    if ok {
      PutPut(old(mem[..]), offset, LE16(low), LE16(high));
      ok := WriteUint16(mem, Add64(offset, 2), high);
    }
  }

  /** Whether a string fits; the empty string at offset 0 is refused. */
  predicate Fits(size: int, offset: nat, str: Text) {
    offset + |str| <= size && !(offset == 0 && str == [])
  }

  lemma LastLaw(a: nat, n: nat)
    requires a < SIZE_T && n < SIZE_T / 2
    ensures a + n == 0 ==> Last64(a, n) == SIZE_T - 1
    ensures 0 < a + n <= SIZE_T ==> Last64(a, n) == a + n - 1
    ensures a + n > SIZE_T ==> a > SIZE_T / 2
  {
  }

  lemma NextByte(m: Text, at: nat, str: Text, i: nat)
    requires i < |str| && at + |str| <= |m|
    ensures Put(Put(m, at, str[..i]), at + i, [str[i]]) == Put(m, at, str[..i + 1])
  {
    PutPut(m, at, str[..i], [str[i]]);
    assert str[..i] + [str[i]] == str[..i + 1];
  }

  /** The bytes of a string. */
  method WriteRawString(mem: array<Octet>, offset: nat, str: Text) returns (ok: bool)
    requires offset < SIZE_T && |str| < SIZE_T / 2 && mem.Length <= WORD
    modifies mem
    ensures ok == Fits(mem.Length, offset, str)
    ensures mem[..] == Put(old(mem[..]), offset, str)
  {
    hide Put;
    hide Last64;
    LastLaw(offset, |str|);
    PutNone(mem[..], offset);
    PutUnfit(mem[..], offset, str);
    if Last64(offset, |str|) >= mem.Length {
      return false;
    }
    var i := 0;
    while i < |str|
      invariant i <= |str| && (i > 0 ==> offset + |str| <= mem.Length)
      invariant mem[..] == Put(old(mem[..]), offset, str[..i])
    {
      PutUnfit(mem[..], Add64(offset, i), [str[i]]);
      var worked := WriteUint8(mem, Add64(offset, i), str[i]);
      if !worked {
        return false;
      }
      NextByte(old(mem[..]), offset, str, i);
      i := i + 1;
    }
    assert str[..i] == str;
    return true;
  }

  /** Memory below `at` is the same. */
  ghost predicate Below(m: Text, m': Text, at: nat) {
    |m| == |m'| && forall i | 0 <= i < at && i < |m| :: m'[i] == m[i]
  }

  lemma BelowSame(m: Text, at: nat)
    ensures Below(m, m, at)
  {
  }

  lemma BelowTrans(m0: Text, m1: Text, m2: Text, at: nat, k: nat)
    requires Below(m0, m1, at) && Below(m1, m2, k) && at <= k
    ensures Below(m0, m2, at)
  {
  }

  lemma PutBelow(m: Text, at: nat, b: Text, k: nat)
    requires k <= at
    ensures Below(m, Put(m, at, b), k)
  {
  }

  /** A pointer and a count, the members of both kinds of struct. */
  method WriteStruct(mem: array<Octet>, offset: nat, pointer: nat, count: nat) returns (ok: bool)
    requires offset < SIZE_T - 4 && mem.Length <= WORD
    modifies mem
    ensures ok == (offset + 8 <= mem.Length)
    ensures ok ==> mem[..] == Put(old(mem[..]), offset, LE32(pointer) + LE32(count))
    ensures Below(old(mem[..]), mem[..], offset)
  {
    PutBelow(mem[..], offset, LE32(pointer), offset);
    ok := WriteUint32(mem, offset, pointer);
    if ok {
      PutBelow(mem[..], offset + 4, LE32(count), offset);
      ok := WriteUint32(mem, offset + 4, count);
    }
    if ok {
      PutPut(old(mem[..]), offset, LE32(pointer), LE32(count));
    }
  }

  /** A string with its struct; the result is the address of the struct, or `UINT32_MAX`. */
  method WriteCustomString(mem: array<Octet>, offset: nat, str: Text) returns (p: nat)
    requires offset < SIZE_T && |str| < SIZE_T / 2 && mem.Length <= WORD
    modifies mem
    ensures p == if Fits(mem.Length - 8, offset, str) then offset + |str| else UINT32_MAX
    ensures p != UINT32_MAX ==> mem[..] == Put(old(mem[..]), offset, StringImage(offset, str))
    ensures Below(old(mem[..]), mem[..], offset)
  {
    PutBelow(mem[..], offset, str, offset);
    var worked := WriteRawString(mem, offset, str);
    if !worked {
      return UINT32_MAX;
    }
    var structOffset := offset + |str|;
    worked := WriteStruct(mem, structOffset, offset, |str|);
    if !worked {
      return UINT32_MAX;
    }
    PutPut(old(mem[..]), offset, str, LE32(offset) + LE32(|str|));
    return structOffset;
  }

  // ----------------------------------------------------------------------------- lists

  /** Whether a list fits; one that starts with an empty string is refused at offset 0. */
  predicate ListFits(size: nat, offset: nat, list: seq<Text>) {
    offset + ListSize(list) <= size && !(offset == 0 && list != [] && list[0] == [])
  }

  lemma {:induction false} SizeGrows(list: seq<Text>, j: nat, k: nat)
    requires j <= k <= |list|
    ensures SizeTo(list, j) <= SizeTo(list, k) && (j < k ==> SizeTo(list, j + 1) <= SizeTo(list, k))
    decreases k - j
  {
    if j < k {
      SizeGrows(list, j, k - 1);
    }
  }

  /** The bytes a list will take. */
  method ComputeMemorySizeFor(list: seq<Text>) returns (size: nat)
    ensures forall at :: size == |ListImage(at, list)|
  {
    size := 0;
    var i := 0;
    while i < |list|
      invariant i <= |list| && size == SizeTo(list, i)
    {
      size := size + StringSize(list[i]);
      i := i + 1;
    }
    size := size + |list| * 4 + 8;
  }

  lemma {:induction false} StringsStep(m: Text, m': Text, at: nat, list: seq<Text>, i: nat)
    requires i < |list| && at + SizeTo(list, i + 1) <= |m|
    requires m' == Put(Put(m, at, StringsTo(at, list, i)), at + SizeTo(list, i),
                       StringImage(at + SizeTo(list, i), list[i]))
    ensures m' == Put(m, at, StringsTo(at, list, i + 1))
    ensures SizeTo(list, i + 1) == SizeTo(list, i) + StringSize(list[i])
    ensures StructAt(at, list, i) == at + SizeTo(list, i) + |list[i]|
  {
    hide Put;
    hide StringImage;
    var a, b := StringsTo(at, list, i), StringImage(at + SizeTo(list, i), list[i]);
    assert StringsTo(at, list, i + 1) == a + b;
    PutPut(m, at, a, b);
  }

  /** Three pieces written one behind the other. */
  lemma PutThree(m: Text, m1: Text, m2: Text, m3: Text, at: nat, a: Text, b: Text, c: Text)
    requires at + |a| + |b| + |c| <= |m|
    requires m1 == Put(m, at, a) && m2 == Put(m1, at + |a|, b) && m3 == Put(m2, at + |a| + |b|, c)
    ensures m3 == Put(m, at, a + b + c)
  {
    PutPut(m, at, a, b);
    PutPut(m, at, a + b, c);
  }

  /** When the next string of a list fits. */
  lemma FitsHere(size: nat, offset: nat, list: seq<Text>, i: nat)
    requires i < |list|
    ensures Fits(size - 8, offset + SizeTo(list, i), list[i])
       <==> offset + SizeTo(list, i + 1) <= size && !(i == 0 && offset == 0 && list[0] == [])
  {
  }

  /** The strings of a list; `ptrs` are the addresses of their structs. */
  method WriteStrings(mem: array<Octet>, offset: nat, list: seq<Text>) returns (ok: bool, ptrs: seq<nat>)
    requires offset + ListSize(list) < SIZE_T / 2 && mem.Length <= WORD
    modifies mem
    ensures ok == (list == [] || (offset + SizeTo(list, |list|) <= mem.Length && !(offset == 0 && list[0] == [])))
    ensures ok ==> |ptrs| == |list| && forall k | 0 <= k < |list| :: ptrs[k] == StructAt(offset, list, k)
    ensures ok ==> mem[..] == Put(old(mem[..]), offset, StringsTo(offset, list, |list|))
    ensures Below(old(mem[..]), mem[..], offset)
  {
    hide Put;
    hide Below;
    hide Fits;
    hide StructAt;
    ptrs := [];
    var i, at := 0, offset;
    PutNone(mem[..], offset);
    BelowSame(mem[..], offset);
    while i < |list|
      invariant i <= |list| && |ptrs| == i && at == offset + SizeTo(list, i)
      invariant i > 0 ==> at <= mem.Length && !(offset == 0 && list[0] == [])
      invariant forall k | 0 <= k < i :: ptrs[k] == StructAt(offset, list, k)
      invariant mem[..] == Put(old(mem[..]), offset, StringsTo(offset, list, i))
      invariant Below(old(mem[..]), mem[..], offset)
    {
      SizeGrows(list, i, |list|);
      ghost var m := mem[..];
      var p := WriteCustomString(mem, at, list[i]);
      BelowTrans(old(mem[..]), m, mem[..], offset, at);
      FitsHere(mem.Length, offset, list, i);
      if p == UINT32_MAX {
        return false, [];
      }
      StringsStep(old(mem[..]), mem[..], offset, list, i);
      ptrs, at := ptrs + [p], at + StringSize(list[i]);
      i := i + 1;
    }
    return true, ptrs;
  }

  /** The array of pointers. */
  method WritePointers(mem: array<Octet>, offset: nat, at: nat, list: seq<Text>, ptrs: seq<nat>) returns (ok: bool)
    requires offset + 4 * |list| < SIZE_T / 2 && mem.Length <= WORD
    requires |ptrs| == |list| && forall k | 0 <= k < |list| :: ptrs[k] == StructAt(at, list, k)
    modifies mem
    ensures ok == (list == [] || offset + 4 * |list| <= mem.Length)
    ensures ok ==> mem[..] == Put(old(mem[..]), offset, PointersTo(at, list, |list|))
    ensures Below(old(mem[..]), mem[..], offset)
  {
    hide Put;
    hide Below;
    hide LE32;
    hide StructAt;
    var i := 0;
    PutNone(mem[..], offset);
    BelowSame(mem[..], offset);
    while i < |list|
      invariant i <= |list| && (i > 0 ==> offset + 4 * i <= mem.Length)
      invariant mem[..] == Put(old(mem[..]), offset, PointersTo(at, list, i))
      invariant Below(old(mem[..]), mem[..], offset)
    {
      PutBelow(mem[..], offset + 4 * i, LE32(ptrs[i]), offset);
      BelowTrans(old(mem[..]), mem[..], Put(mem[..], offset + 4 * i, LE32(ptrs[i])), offset, offset);
      ok := WriteUint32(mem, offset + 4 * i, ptrs[i]);
      if !ok {
        return;
      }
      PutPut(old(mem[..]), offset, PointersTo(at, list, i), LE32(ptrs[i]));
      i := i + 1;
    }
    return true;
  }

  /** A list with its strings, its pointer array and its struct; the result is as for a string. */
  method WriteCustomListOfString(mem: array<Octet>, offset: nat, list: seq<Text>) returns (p: nat)
    requires offset + ListSize(list) < SIZE_T / 2 && mem.Length <= WORD
    modifies mem
    ensures p == if ListFits(mem.Length, offset, list) then offset + ListSize(list) - 8 else UINT32_MAX
    ensures p != UINT32_MAX ==> mem[..] == Put(old(mem[..]), offset, ListImage(offset, list))
    ensures Below(old(mem[..]), mem[..], offset)
  {
    hide Put;
    hide Below;
    hide LE32;
    var ok, ptrs := WriteStrings(mem, offset, list);
    if !ok {
      return UINT32_MAX;
    }
    ghost var m0, m1 := old(mem[..]), mem[..];
    var arrayAt := offset + SizeTo(list, |list|);
    ok := WritePointers(mem, arrayAt, offset, list, ptrs);
    ghost var m2 := mem[..];
    BelowTrans(m0, m1, m2, offset, arrayAt);
    if !ok {
      return UINT32_MAX;
    }
    var structAt := arrayAt + 4 * |list|;
    ok := WriteStruct(mem, structAt, arrayAt, |list|);
    BelowTrans(m0, m2, mem[..], offset, structAt);
    if !ok {
      return UINT32_MAX;
    }
    PutThree(m0, m1, m2, mem[..], offset, StringsTo(offset, list, |list|), PointersTo(offset, list, |list|),
             LE32(arrayAt) + LE32(|list|));
    return structAt;
  }
}
