/** Folding a hash step over the whole stripes of an input, and cutting inputs in two. */
module Stripes {
  type Bytes = seq<bv8>

  /** The state after every whole w-byte stripe of data. */
  ghost function Fold<S>(step: (S, Bytes) -> S, s: S, data: Bytes, w: nat): S
    requires w > 0
    decreases |data|
  {
    if |data| < w then s else Fold(step, step(s, data[..w]), data[w..], w)
  }

  /** What is left of data after its whole stripes. */
  function Tail(data: Bytes, w: nat): (r: Bytes)
    requires w > 0
    ensures |r| < w
    ensures |data| < w ==> r == data
    decreases |data|
  {
    if |data| < w then data else Tail(data[w..], w)
  }

  /** Hashing a + b is hashing a, then hashing what a left over followed by b. */
  lemma {:induction false} FoldAppend<S>(step: (S, Bytes) -> S, s: S, a: Bytes, b: Bytes, w: nat)
    requires w > 0
    ensures Fold(step, s, a + b, w) == Fold(step, Fold(step, s, a, w), Tail(a, w) + b, w)
    ensures Tail(a + b, w) == Tail(Tail(a, w) + b, w)
    decreases |a|
  {
    if |a| >= w {
      assert (a + b)[..w] == a[..w] && (a + b)[w..] == a[w..] + b;
      FoldAppend(step, step(s, a[..w]), a[w..], b, w);
    }
  }

  lemma {:induction false} TailLength32(data: Bytes)
    ensures |Tail(data, 32)| == |data| % 32
    decreases |data|
  {
    if |data| >= 32 {
      TailLength32(data[32..]);
    }
  }

  function Concat(chunks: seq<Bytes>): Bytes {
    if chunks == [] then [] else Concat(chunks[..|chunks| - 1]) + chunks[|chunks| - 1]
  }

  /** memcpy into a buffer */
  method CopyIn(mem: array<bv8>, at: nat, src: Bytes)
    requires at + |src| <= mem.Length
    modifies mem
    ensures mem[..at + |src|] == old(mem[..at]) + src
    ensures mem[at + |src|..] == old(mem[at + |src|..])
  {
    forall i | 0 <= i < |src| { mem[at + i] := src[i]; }
  }

  /** Complete a partly filled stripe buffer. */
  method FillStripe(mem: array<bv8>, memsize: nat, input: Bytes)
    requires memsize <= mem.Length <= memsize + |input|
    modifies mem
    ensures mem[..] == (old(mem[..memsize]) + input)[..mem.Length]
  {
    CopyIn(mem, memsize, input[..mem.Length - memsize]);
    assert mem[..] == mem[..mem.Length];
  }
}
