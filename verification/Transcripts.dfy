/** The durable copy of a run's terminal: a tail of what was written, cut at chunk boundaries. */
module Transcripts {
  import opened Octets

  const MAX_TRANSCRIPT_BYTES := 8 * 1024 * 1024

  // ---------------------------------------------------------------- which chunks are kept

  /** From `n` on the chunks fit the ceiling, or `n` is the last one, which stays however long it is. */
  predicate Keepable(chunks: seq<seq<byte>>, n: nat)
    requires n <= |chunks|
  {
    Total(chunks[n..]) <= MAX_TRANSCRIPT_BYTES || n + 1 >= |chunks|
  }

  /** The first chunk of the longest tail that can be kept, looking from `n` on. */
  function KeptFrom(chunks: seq<seq<byte>>, n: nat): (k: nat)
    requires n <= |chunks|
    ensures n <= k <= |chunks| && Keepable(chunks, k)
    ensures forall m | n <= m < k :: !Keepable(chunks, m)
    decreases |chunks| - n
  {
    if Keepable(chunks, n) then n else KeptFrom(chunks, n + 1)
  }

  function Kept(chunks: seq<seq<byte>>): nat {
    KeptFrom(chunks, 0)
  }

  /** No chunk was dropped that could have been kept, and what is kept is within the ceiling unless it is one chunk. */
  lemma KeptIsTheLongestTail(chunks: seq<seq<byte>>, n: nat)
    requires n <= |chunks|
    ensures n < Kept(chunks) ==> Total(chunks[n..]) > 8_388_608
    ensures Total(chunks[Kept(chunks)..]) <= 8_388_608 || Kept(chunks) == |chunks| - 1
    ensures n == Kept(chunks) <==> Keepable(chunks, n) && forall m | 0 <= m < n :: !Keepable(chunks, m)
  {
    assert n < Kept(chunks) ==> !Keepable(chunks, n);
    if chunks != [] {
      assert Keepable(chunks, |chunks| - 1);
    } else {
      assert chunks[Kept(chunks)..] == [];
    }
  }

  /** What was dropped before stays dropped: one more chunk only makes a tail longer. */
  lemma DroppedStaysDropped(chunks: seq<seq<byte>>, chunk: seq<byte>)
    ensures Kept(chunks + [chunk]) == KeptFrom(chunks + [chunk], Kept(chunks))
  {
    var more := chunks + [chunk];
    var k := Kept(chunks);
    forall m | 0 <= m < k
      ensures !Keepable(more, m)
    {
      assert !Keepable(chunks, m);
      assert more[m..] == chunks[m..] + [chunk];
      ConcatOfConcat(chunks[m..], [chunk]);
    }
    LeastFrom(more, k, KeptFrom(more, k));
  }

  lemma LeastFrom(chunks: seq<seq<byte>>, n: nat, k: nat)
    requires n <= k <= |chunks| && k == KeptFrom(chunks, n)
    requires forall m | 0 <= m < n :: !Keepable(chunks, m)
    ensures Kept(chunks) == k
  {
    var least := Kept(chunks);
    assert Keepable(chunks, least) && Keepable(chunks, k);
  }

  lemma Pushed(chunks: seq<seq<byte>>, chunk: seq<byte>, k: nat)
    requires k <= |chunks|
    ensures (chunks + [chunk])[k..] == chunks[k..] + [chunk]
    ensures Total((chunks + [chunk])[k..]) == Total(chunks[k..]) + |chunk|
  {
    ConcatOfConcat(chunks[k..], [chunk]);
    assert (chunks + [chunk])[k..] == chunks[k..] + [chunk];
  }

  lemma Shifted(chunks: seq<seq<byte>>, k: nat)
    requires k < |chunks|
    ensures chunks[k..][0] == chunks[k] && chunks[k..][1..] == chunks[k + 1..]
    ensures Total(chunks[k..]) == |chunks[k]| + Total(chunks[k + 1..])
    ensures !Keepable(chunks, k) ==> KeptFrom(chunks, k) == KeptFrom(chunks, k + 1)
  {
    assert chunks[k..][1..] == chunks[k + 1..];
  }

  class Transcript {
    var chunks: seq<seq<byte>>
    var size: nat
    var dropped: bool
    /** Every non-empty chunk ever appended. */
    ghost var appended: seq<seq<byte>>

    ghost predicate Valid()
      reads this
    {
      && NoneEmpty(appended)
      && chunks == appended[Kept(appended)..]
      && size == Total(chunks)
      && dropped == (Kept(appended) > 0)
    }

    constructor ()
      ensures Valid() && appended == []
    {
      chunks, size, dropped, appended := [], 0, false, [];
      KeptIsTheLongestTail([], 0);
    }

    method Append(chunk: seq<byte>)
      requires Valid()
      modifies this
      ensures Valid()
      ensures appended == if chunk == [] then old(appended) else old(appended) + [chunk]
    {
      if chunk == [] {
        return;
      }
      ghost var all := appended + [chunk];
      ghost var k: nat := Kept(appended);
      DroppedStaysDropped(appended, chunk);
      Pushed(appended, chunk, k);
      chunks := chunks + [chunk];
      size := size + |chunk|;
      while size > MAX_TRANSCRIPT_BYTES && |chunks| > 1
        invariant k <= |all| && chunks == all[k..] && size == Total(chunks)
        invariant Kept(all) == KeptFrom(all, k)
        invariant dropped == (k > 0)
        decreases |chunks|
      {
        Shifted(all, k);
        size := size - |chunks[0]|;
        chunks := chunks[1..];
        dropped := true;
        k := k + 1;
      }
      appended := all;
    }

    /** The bytes that are stored, and what is said about them. */
    method Saved() returns (bytes: seq<byte>, sizeBytes: nat, truncated: bool)
      requires Valid()
      ensures bytes == Concat(appended[Kept(appended)..]) && sizeBytes == |bytes|
      ensures IsTail(bytes, Concat(appended))
      ensures truncated <==> bytes != Concat(appended)
    {
      bytes, sizeBytes, truncated := Concat(chunks), size, dropped;
      TailOf(appended, Kept(appended));
    }
  }

  predicate IsTail(tail: seq<byte>, all: seq<byte>) {
    |tail| <= |all| && all[|all| - |tail|..] == tail
  }

  /** The chunks from `k` on make up a tail of everything written, a proper one exactly when something is left out. */
  lemma TailOf(chunks: seq<seq<byte>>, k: nat)
    requires k <= |chunks| && NoneEmpty(chunks)
    ensures IsTail(Concat(chunks[k..]), Concat(chunks))
    ensures Concat(chunks[k..]) != Concat(chunks) <==> k > 0
  {
    assert chunks == chunks[..k] + chunks[k..];
    ConcatOfConcat(chunks[..k], chunks[k..]);
    if k > 0 {
      assert Concat(chunks[..k]) == chunks[..k][0] + Concat(chunks[..k][1..]);
      assert chunks[..k][0] == chunks[0];
    } else {
      assert chunks[k..] == chunks;
    }
  }
}
