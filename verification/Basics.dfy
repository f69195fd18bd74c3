/**
 What several modules share: bytes, optional values (a C pointer that may be NULL), and the widths of the
 unsigned integers.
 */
module Basics {
  type byte = b: int | 0 <= b < 256
  type Bytes = seq<byte>

  datatype Option<+T> = None | Some(value: T)

  const TWO_32: nat := 0x1_0000_0000
  const TWO_64: nat := 0x1_0000_0000_0000_0000

  predicate Distinct<T(==)>(xs: seq<T>) { forall i, j :: 0 <= i < j < |xs| ==> xs[i] != xs[j] }

  // ----- Sequences of sequences -----

  function Flatten<T>(xs: seq<seq<T>>): seq<T> { if xs == [] then [] else xs[0] + Flatten(xs[1..]) }

  lemma {:induction false} FlattenAppend<T>(xs: seq<seq<T>>, x: seq<T>)
    ensures Flatten(xs + [x]) == Flatten(xs) + x
  {
    if xs == [] {
      assert xs + [x] == [x] && [x][1..] == [];
    } else {
      FlattenAppend(xs[1..], x);
      assert (xs + [x])[1..] == xs[1..] + [x];
    }
  }

  lemma FlattenLast<T>(xs: seq<seq<T>>)
    requires xs != []
    ensures Flatten(xs) == Flatten(xs[..|xs| - 1]) + xs[|xs| - 1]
  {
    FlattenAppend(xs[..|xs| - 1], xs[|xs| - 1]);
    assert xs[..|xs| - 1] + [xs[|xs| - 1]] == xs;
  }
}
