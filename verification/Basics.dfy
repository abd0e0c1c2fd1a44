/** What all parts of the model share. */
module Basics {

  const U32 := 0x1_0000_0000
  const U64 := 0x1_0000_0000_0000_0000

  datatype Option<+V> = None | Some(value: V)

  type Byte = x: int | 0 <= x < 256

  function Zeros(n: nat): (z: seq<Byte>)
    ensures |z| == n && forall i :: 0 <= i < n ==> z[i] == 0
  {
    seq(n, _ => 0)
  }

  function One(b: bool): nat {
    if b then 1 else 0
  }

  function Flatten<T>(pieces: seq<seq<T>>): seq<T> {
    if pieces == [] then [] else Flatten(pieces[..|pieces| - 1]) + pieces[|pieces| - 1]
  }

  /** The first piece, and the rest. */
  lemma {:induction false} FlattenFirst<T>(pieces: seq<seq<T>>)
    requires pieces != []
    ensures Flatten(pieces) == pieces[0] + Flatten(pieces[1..])
  {
    var n := |pieces| - 1;
    if n == 0 {
      assert Flatten(pieces[..n]) == [] && pieces[1..] == [];
    } else {
      var inner := pieces[1..n];
      FlattenFirst(pieces[..n]);
      assert pieces[..n][1..] == inner && pieces[1..][..n - 1] == inner && pieces[1..][n - 1] == pieces[n];
      assert pieces[0] + Flatten(inner) + pieces[n] == pieces[0] + (Flatten(inner) + pieces[n]);
    }
  }

  ghost predicate Distinct<T>(s: seq<T>) {
    forall i, j :: 0 <= i < j < |s| ==> s[i] != s[j]
  }
}
