/**
 Placing the arguments of a call in the WASM module's memory: numbers are passed as they
 are, strings and lists of strings are written one behind the other and passed by pointer.
 */
module WasmArguments {
  import opened WasmMemory
  import opened WasmSerializer
  import opened WasmDeserializer

  datatype Arg = Number(n: int) | Str(s: Text) | List(l: seq<Text>) | Unsupported

  function ArgSize(a: Arg): nat {
    match a
    case Str(s) => StringSize(s)
    case List(l) => ListSize(l)
    case _ => 0
  }

  /** Where the `k`th argument goes. */
  function OffsetTo(args: seq<Arg>, k: nat): nat
    requires k <= |args|
  {
    if k == 0 then 0 else OffsetTo(args, k - 1) + ArgSize(args[k - 1])
  }

  /** An argument that is refused at offset 0. */
  predicate StartsEmpty(a: Arg) {
    (a.Str? && a.s == []) || (a.List? && a.l != [] && a.l[0] == [])
  }

  /** When the arguments can be passed, told from the arguments and the memory size alone. */
  predicate Placeable(size: nat, args: seq<Arg>) {
    && OffsetTo(args, |args|) <= size
    && forall k | 0 <= k < |args| :: args[k] != Unsupported && (StartsEmpty(args[k]) ==> OffsetTo(args, k) > 0)
  }

  /** The argument lies in memory where `v` points behind its data. */
  predicate Stored(m: Text, at: nat, a: Arg, v: int) {
    match a
    case Number(n) => v == n
    case Str(s) => v == at + |s| && Holds(m, at, StringImage(at, s))
    case List(l) => v == at + ListSize(l) - 8 && Holds(m, at, ListImage(at, l))
    case Unsupported => false
  }

  /** Reading at `v` is safe and gives the argument, each string up to a leading NUL. */
  predicate ReadsBack(m: Text, a: Arg, v: int) {
    match a
    case Number(n) => v == n
    case Str(s) => v >= 0 && StringAt(m, v) == Visible(s) && !Overruns(m, v)
    case List(l) => v >= 0 && ListAt(m, v, []) == VisibleTo(l, |l|) && !ListOverruns(m, v)
    case Unsupported => false
  }

  lemma StoredReads(m: Text, at: nat, a: Arg, v: int)
    requires |m| <= WORD && Stored(m, at, a, v)
    ensures ReadsBack(m, a, v)
  {
    hide Holds;
    hide StringAt;
    hide ListAt;
    hide Overruns;
    hide ListOverruns;
    hide ListImage;
    match a
    case Str(s) => StringRoundTrip(m, at, s);
    case List(l) => ListRoundTrip(m, at, l);
    case Number(_) =>
  }

  /** Later writes lie behind an argument and leave it alone. */
  lemma StoredKept(m: Text, at: nat, a: Arg, v: int, p: nat, b: Text)
    requires Stored(m, at, a, v) && at + ArgSize(a) <= p
    ensures Stored(Put(m, p, b), at, a, v)
  {
    match a
    case Str(s) => PutKeeps(m, p, b, at, StringImage(at, s));
    case List(l) => PutKeeps(m, p, b, at, ListImage(at, l));
    case Number(_) =>
  }

  lemma {:induction false} OffsetGrows(args: seq<Arg>, j: nat, k: nat)
    requires j <= k <= |args|
    ensures OffsetTo(args, j) <= OffsetTo(args, k)
    decreases k - j
  {
    if j < k {
      OffsetGrows(args, j, k - 1);
    }
  }

  /** All arguments so far are in place. */
  predicate AllStored(m: Text, args: seq<Arg>, argv: seq<int>, k: nat)
    requires k <= |args|
  {
    |argv| == k && forall j | 0 <= j < k :: Stored(m, OffsetTo(args, j), args[j], argv[j])
  }

  lemma StoreNext(m: Text, args: seq<Arg>, argv: seq<int>, k: nat, b: Text, v: int)
    requires k < |args| && AllStored(m, args, argv, k)
    requires Stored(Put(m, OffsetTo(args, k), b), OffsetTo(args, k), args[k], v)
    ensures AllStored(Put(m, OffsetTo(args, k), b), args, argv + [v], k + 1)
  {
    hide Stored;
    hide Put;
    var p := OffsetTo(args, k);
    forall j | 0 <= j < k
      ensures Stored(Put(m, p, b), OffsetTo(args, j), args[j], argv[j])
    {
      OffsetGrows(args, j + 1, k);
      StoredKept(m, OffsetTo(args, j), args[j], argv[j], p, b);
    }
  }

  lemma NoneStored(m: Text, args: seq<Arg>)
    ensures AllStored(m, args, [], 0)
  {
  }

  /** When all are in place, all read back. */
  lemma AllRead(m: Text, args: seq<Arg>, argv: seq<int>)
    requires |m| <= WORD && AllStored(m, args, argv, |args|)
    ensures |argv| == |args| && forall k | 0 <= k < |args| :: ReadsBack(m, args[k], argv[k])
  {
    hide Stored;
    hide ReadsBack;
    forall k | 0 <= k < |args|
      ensures ReadsBack(m, args[k], argv[k])
    {
      StoredReads(m, OffsetTo(args, k), args[k], argv[k]);
    }
  }

  /** Writes one argument at `offset`. */
  method PlaceOne(mem: array<Octet>, offset: nat, a: Arg) returns (ok: bool, v: int, ghost b: Text)
    requires offset + ArgSize(a) < SIZE_T / 2 && mem.Length <= WORD && offset <= mem.Length
    modifies mem
    ensures ok == (a != Unsupported && offset + ArgSize(a) <= mem.Length && (StartsEmpty(a) ==> offset > 0))
    ensures ok ==> mem[..] == Put(old(mem[..]), offset, b) && Stored(mem[..], offset, a, v)
  {
    b := [];
    PutNone(mem[..], offset);
    match a {
      case Unsupported =>
        return false, 0, [];
      case Number(n) =>
        return true, n, [];
      case Str(s) =>
        b := StringImage(offset, s);
        var p := WriteCustomString(mem, offset, s);
        if p == UINT32_MAX {
          return false, 0, [];
        }
        PutHolds(old(mem[..]), offset, b);
        return true, p, b;
      case List(l) =>
        b := ListImage(offset, l);
        var p := WriteCustomListOfString(mem, offset, l);
        if p == UINT32_MAX {
          return false, 0, [];
        }
        PutHolds(old(mem[..]), offset, b);
        return true, p, b;
    }
  }

  /**
   Places all arguments.  It succeeds exactly if they can be placed, and then every value
   passed still reads back as its own argument when all have been written.
   */
  method PlaceArguments(mem: array<Octet>, args: seq<Arg>) returns (ok: bool, argv: seq<int>)
    requires OffsetTo(args, |args|) < SIZE_T / 2 && mem.Length <= WORD
    modifies mem
    ensures ok <==> Placeable(mem.Length, args)
    ensures ok ==> |argv| == |args| && forall k | 0 <= k < |args| :: ReadsBack(mem[..], args[k], argv[k])
  {
    hide Stored;
    hide AllStored;
    hide ReadsBack;
    hide Put;
    argv := [];
    NoneStored(mem[..], args);
    var i, offset := 0, 0;
    while i < |args|
      invariant i <= |args| && offset == OffsetTo(args, i) <= mem.Length
      invariant AllStored(mem[..], args, argv, i)
      invariant forall k | 0 <= k < i :: args[k] != Unsupported && (StartsEmpty(args[k]) ==> OffsetTo(args, k) > 0)
    {
      OffsetGrows(args, i + 1, |args|);
      ghost var m := mem[..];
      var v;
      ghost var b;
      ok, v, b := PlaceOne(mem, offset, args[i]);
      if !ok {
        return false, [];
      }
      StoreNext(m, args, argv, i, b, v);
      argv, offset := argv + [v], offset + ArgSize(args[i]);
      i := i + 1;
    }
    AllRead(mem[..], args, argv);
    return true, argv;
  }
}
