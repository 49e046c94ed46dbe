/** Small vocabulary for saying that things are somewhere once. */
module Counting {
  function One(b: bool): nat {
    if b then 1 else 0
  }

  /** Inequality under a name, so that proofs say which pairs they compare. */
  predicate Differ(a: nat, b: nat) {
    a != b
  }

  /** Nothing occurs twice. */
  predicate Once(l: seq<nat>) {
    forall i, j {:trigger Differ(l[i], l[j])} | 0 <= i < j < |l| :: Differ(l[i], l[j])
  }

  lemma OnceMore(l: seq<nat>, x: nat)
    requires Once(l) && x !in l
    ensures Once(l + [x])
  {
    var m := l + [x];
    forall i, j | 0 <= i < j < |m|
      ensures Differ(m[i], m[j])
    {
      assert j < |l| ==> Differ(l[i], l[j]);
    }
  }
}
