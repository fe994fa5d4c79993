/** Bytes, and the chunks they travel in. */
module Octets {
  import opened Sequences

  type byte = x: int | 0 <= x < 256

  function Total(chunks: seq<seq<byte>>): nat {
    if chunks == [] then 0 else |chunks[0]| + Total(chunks[1..])
  }

  function Concat(chunks: seq<seq<byte>>): (bytes: seq<byte>)
    ensures |bytes| == Total(chunks)
  {
    if chunks == [] then [] else chunks[0] + Concat(chunks[1..])
  }

  predicate NoneEmpty(chunks: seq<seq<byte>>) {
    forall i | 0 <= i < |chunks| :: chunks[i] != []
  }

  lemma {:induction false} ConcatOfConcat(a: seq<seq<byte>>, b: seq<seq<byte>>)
    ensures Concat(a + b) == Concat(a) + Concat(b)
    ensures Total(a + b) == Total(a) + Total(b)
  {
    if a == [] {
      assert a + b == b;
    } else {
      ConcatOfConcat(a[1..], b);
      assert (a + b)[1..] == a[1..] + b;
      Regroup(a[0], Concat(a[1..]), Concat(b));
    }
  }

  lemma ConcatOfOne(chunk: seq<byte>)
    ensures Concat([chunk]) == chunk && Total([chunk]) == |chunk|
  {
    assert [chunk][1..] == [];
    assert Concat([chunk]) == chunk + [];
  }
}
