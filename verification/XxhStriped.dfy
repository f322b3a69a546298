/** The hashes built of whole stripes and a tail, in one shot and buffered: XXH32 and XXH64. */
module XxhStriped {
  import opened Stripes

  /**
   * A striped hash: stripes of `width` bytes folded into lanes, which converge to an accumulator, unless the input is
   * shorter than a stripe; then the length modulo `modulus` and the bytes after the last stripe are mixed in.
   * `short` is how a digest finds `empty` again in lanes that have seen no stripe.
   */
  datatype Engine<!S, !H> = Engine(width: nat, modulus: nat, start: S, stripe: (S, Bytes) -> S, converge: S -> H,
    empty: H, short: S -> H, addLen: (H, nat) -> H, finish: (H, Bytes) -> H)

  ghost predicate Proper<S(!new), H(!new)>(e: Engine<S, H>) {
    e.width > 0 && e.modulus > 0 && e.short(e.start) == e.empty
  }

  /** The hash of an input, by its definition. */
  ghost function Hash<S(!new), H(!new)>(e: Engine<S, H>, data: Bytes): H
    requires Proper(e)
  {
    var h := if |data| >= e.width then e.converge(Fold(e.stripe, e.start, data, e.width)) else e.empty;
    e.finish(e.addLen(h, |data| % e.modulus), Tail(data, e.width))
  }

  /** XXH32_endian_align and XXH64_endian_align: the one-shot hash. */
  method OneShot<S(!new), H(!new)>(e: Engine<S, H>, input: Bytes) returns (r: H)
    requires Proper(e)
    ensures r == Hash(e, input)
  {
    var h := e.empty;
    var p := 0;
    assert input[0..] == input;
    if |input| >= e.width {
      var v;
      v, p := ConsumeStripes(e, e.start, input);
      h := e.converge(v);
    }
    r := e.finish(e.addLen(h, |input| % e.modulus), input[p..]);
  }

  /** The loop over whole stripes. */
  method ConsumeStripes<S(!new), H(!new)>(e: Engine<S, H>, v0: S, input: Bytes) returns (v: S, p: nat)
    requires e.width > 0
    ensures p <= |input| && v == Fold(e.stripe, v0, input, e.width) && input[p..] == Tail(input, e.width)
  {
    v, p := v0, 0;
    assert input[0..] == input;
    while |input| - p >= e.width
      invariant p <= |input|
      invariant Fold(e.stripe, v, input[p..], e.width) == Fold(e.stripe, v0, input, e.width)
      invariant Tail(input[p..], e.width) == Tail(input, e.width)
    {
      assert input[p..][e.width..] == input[p + e.width..];
      v := e.stripe(v, input[p..][..e.width]);
      p := p + e.width;
    }
  }

  /** The body common to XXH32_update and XXH64_update: complete the buffered stripe, take whole stripes, keep the rest. */
  method Absorb<S(!new), H(!new)>(e: Engine<S, H>, mem: array<bv8>, memsize: nat, v0: S, input: Bytes)
      returns (v: S, left: nat)
    requires memsize < e.width == mem.Length
    modifies mem
    ensures left < e.width && mem[..left] == Tail(old(mem[..memsize]) + input, e.width)
    ensures v == Fold(e.stripe, v0, old(mem[..memsize]) + input, e.width)
  {
    ghost var whole := mem[..memsize] + input;
    if memsize + |input| < e.width {
      CopyIn(mem, memsize, input);
      return v0, memsize + |input|;
    }
    v := v0;
    var rest := input;
    if memsize > 0 {
      rest := input[e.width - memsize..];
      FillStripe(mem, memsize, input);
      v := e.stripe(v, mem[..]);
      assert whole[..e.width] == mem[..] && whole[e.width..] == rest;
    } else {
      assert whole == rest;
    }
    var p;
    v, p := ConsumeStripes(e, v, rest);
    CopyIn(mem, 0, rest[p..]);
    left := |rest| - p;
  }
}
