/** Exactly when a reallocation writes outside its block, and heaps that lose a block or part of a payload. */
module AllocatorBounds {
  import opened Memory
  import opened AllocatorBlock
  import opened Allocator
  import opened SystemAllocator

  // ----- which writes leave the block

  lemma FormatOutside(w: Bytes, b: Block, i: nat)
    requires Sane(b) && b.base + Extent(b) <= |w| && i < |w| && (i < b.base || b.base + Extent(b) <= i)
    ensures Format(w, b.base, b, b.shift)[i] == w[i]
  {
    FormatLaysOut(w, b);
    var v := Format(w, b.base, b, b.shift);
    if i < b.base {
      assert v[i] == v[0..b.base][i] && w[i] == w[0..b.base][i];
    } else {
      var k := b.base + Extent(b);
      assert v[i] == v[k..|w|][i - k] && w[i] == w[k..|w|][i - k];
    }
  }

  lemma ReadShort(m: Bytes, a: nat, n: nat)
    ensures |Read(m, a, n)| <= n
  {
  }

  lemma MovedOutside(m: Bytes, b: Block, o: Before, i: nat)
    requires Sane(b) && Contained(b, o) && i < |m| && (i < b.base || b.base + Extent(b) <= i)
    ensures Moved(m, b, o)[i] == m[i]
  {
    if o.keep && o.shift != b.shift {
      ReadShort(m, b.base + o.shift, o.size);
      WriteAt(m, DataOf(b), Read(m, b.base + o.shift, o.size), i);
    }
  }

  lemma ClearedOutside(m: Bytes, b: Block, o: Before, zero: bool, i: nat)
    requires Sane(b) && i < |m| && (i < b.base || b.base + Extent(b) <= i)
    ensures Cleared(m, b, o, zero)[i] == m[i]
  {
    var done := if o.keep then o.size else 0;
    if zero && b.size > done {
      WriteAt(m, DataOf(b) + done, ZeroBytes(b.size - done), i);
    }
  }

  /** In memory w, byte i is outside the raw block of b. */
  predicate Outside(w: Bytes, b: Block, i: nat) {
    b.base + Extent(b) <= |w| && i < |w| && (i < b.base || b.base + Extent(b) <= i)
  }

  lemma ContainedStays(w: Bytes, b: Block, o: Before, zero: bool, i: nat)
    requires Sane(b) && Contained(b, o) && Outside(w, b, i)
    ensures Placed(w, b, o, zero)[i] == w[i]
  {
    var m := Format(w, b.base, b, b.shift);
    FormatOutside(w, b, i);
    MovedOutside(m, b, o, i);
    ClearedOutside(Moved(m, b, o), b, o, zero, i);
  }

  lemma {:induction false} WordsSame(m: Bytes, w: Bytes, a: nat, words: seq<nat>, j: nat)
    requires |m| == |w| && j < |m| && m[j] == w[j]
    ensures WriteWords(m, a, words)[j] == WriteWords(w, a, words)[j]
    decreases |words|
  {
    if words != [] {
      WriteAt(m, a, LE(words[0], 8), j);
      WriteAt(w, a, LE(words[0], 8), j);
      WordsSame(Write(m, a, LE(words[0], 8)), Write(w, a, LE(words[0], 8)), a + 8, words[1..], j);
    }
  }

  /** What Format makes of a byte depends on that byte alone. */
  lemma FormatSame(m: Bytes, w: Bytes, b: Block, j: nat)
    requires Sane(b) && |m| == |w| && j < |m| && m[j] == w[j]
    ensures Format(m, b.base, b, b.shift)[j] == Format(w, b.base, b, b.shift)[j]
  {
    if b.shift != HEADER {
      WriteAt(m, b.base + b.shift - 8, LE(b.base, 8), j);
      WriteAt(w, b.base + b.shift - 8, LE(b.base, 8), j);
    }
    WordsSame(Linked(m, b.base, b, b.shift), Linked(w, b.base, b, b.shift), b.base, HeaderOf(b), j);
  }

  /** A move that is not contained writes the byte just past the block. */
  lemma SpilledByte(w: Bytes, b: Block, o: Before, zero: bool, j: nat)
    requires Sane(b) && !Contained(b, o) && b.base + Extent(b) < |w| && b.base + o.shift + o.size <= |w|
    requires j == b.base + o.shift + (Extent(b) - b.shift)
    ensures j < |w| && Placed(w, b, o, zero)[b.base + Extent(b)] == Format(w, b.base, b, b.shift)[j]
  {
    MovedSpills(Format(w, b.base, b, b.shift), b, o, j);
  }

  lemma MovedSpills(m: Bytes, b: Block, o: Before, j: nat)
    requires Sane(b) && !Contained(b, o) && b.base + Extent(b) < |m| && b.base + o.shift + o.size <= |m|
    requires j == b.base + o.shift + (Extent(b) - b.shift)
    ensures j < |m| && Moved(m, b, o)[b.base + Extent(b)] == m[j]
  {
    var data := Read(m, b.base + o.shift, o.size);
    WriteAt(m, DataOf(b), data, b.base + Extent(b));
    assert data[Extent(b) - b.shift] == m[j];
  }

  /** So some memory holds another byte there, and loses it. */
  lemma UncontainedSpills(b: Block, o: Before, zero: bool) returns (w: Bytes)
    requires Sane(b) && !Contained(b, o)
    ensures Outside(w, b, b.base + Extent(b))
    ensures Placed(w, b, o, zero)[b.base + Extent(b)] != w[b.base + Extent(b)]
  {
    var i := b.base + Extent(b);
    var j := b.base + o.shift + (Extent(b) - b.shift);
    var w0: Bytes := ZeroBytes(i + o.shift + o.size + 1);
    SpilledByte(w0, b, o, zero, j);
    var v := Placed(w0, b, o, zero)[i];
    w := w0[i := if v == 0 then 1 else 0];
    SpilledByte(w, b, o, zero, j);
    FormatSame(w0, w, b, j);
  }

  /**
   * A reallocation leaves every byte outside the new block alone, whatever memory holds, exactly when the shift is
   * unchanged or the old size fits behind the new shift.
   */
  lemma ContainedExact(b: Block, o: Before, zero: bool)
    requires Sane(b)
    ensures !o.keep || o.shift == b.shift || b.shift + o.size <= Extent(b) <==>
      forall w: Bytes, i: nat | Outside(w, b, i) :: Placed(w, b, o, zero)[i] == w[i]
  {
    if Contained(b, o) {
      forall w: Bytes, i: nat | Outside(w, b, i) ensures Placed(w, b, o, zero)[i] == w[i] {
        ContainedStays(w, b, o, zero, i);
      }
    } else {
      var w := UncontainedSpills(b, o, zero);
    }
  }

  /** Apart from that the move may read past the new block, which changes nothing the heap depends on. */
  predicate ReadsInside(b: Block, o: Before) {
    !o.keep || o.shift == b.shift || o.shift + o.size <= Extent(b)
  }

  /** That happens to a contained move only when the block shrinks and the shift does too. */
  lemma ReadsOutsideOnlyShrinking(a: Block, b: Block)
    requires Sane(a) && Sane(b) && a.power <= b.power
    requires Contained(b, Before(true, a.shift, a.size)) && !ReadsInside(b, Before(true, a.shift, a.size))
    ensures b.size < a.size && b.shift < a.shift
  {
    Pow2Monotone(a.power, b.power);
  }

  // ----- heaps that do not survive

  const OLD: Block := Block(64, 100, 3, 24)
  const NEIGHBOUR: Block := Block(200, 8, 3, 24)
  const NEW: Block := Block(64, 0, 6, 64)

  lemma ExampleSane()
    ensures Sane(OLD) && Sane(NEIGHBOUR) && Sane(NEW)
    ensures Extent(OLD) == 132 && Extent(NEIGHBOUR) == 40 && Extent(NEW) == 88
    ensures LowBitsZero(88, 3) && LowBitsZero(224, 3) && LowBitsZero(128, 6)
    ensures Hdr2Mem(64, 8) == 88 && Hdr2Mem(200, 8) == 224 && Hdr2Mem(64, 64) == 128
  {
    assert Pow2(3) == 8 && Pow2(6) == 64;
  }

  lemma {:induction false} ValZero(s: Bytes)
    requires AllZero(s)
    ensures Val(s) == 0
    decreases |s|
  {
    if s != [] {
      ValZero(s[1..]);
    }
  }

  /** A first block in an empty heap, its payload cleared. */
  lemma FirstBlock(m: Bytes, a: Block) returns (w: Bytes)
    requires |m| <= ADDRESS_SPACE && Sane(a) && LowBitsZero(DataOf(a), a.power) && a.base != NULL && a.base + Extent(a) <= |m|
    ensures |w| == |m| && HeapOk(w, map[a.base := Extent(a)], map[DataOf(a) := a])
    ensures |Payload(w, DataOf(a), a)| == a.size && AllZero(Payload(w, DataOf(a), a))
  {
    PlacedKeeps(m, map[], map[], false, NULL, a, m, true, Before(false, 0, 0));
    w := Placed(m, a, Before(false, 0, 0), true);
  }

  /** A second one behind it. */
  lemma SecondBlock(m: Bytes, a: Block, b: Block) returns (w: Bytes)
    requires HeapOk(m, map[a.base := Extent(a)], map[DataOf(a) := a])
    requires Sane(b) && LowBitsZero(DataOf(b), b.power) && a.base + Extent(a) <= b.base && b.base != NULL && b.base + Extent(b) <= |m|
    ensures |w| == |m| && HeapOk(w, map[a.base := Extent(a)][b.base := Extent(b)], map[DataOf(a) := a][DataOf(b) := b])
    ensures DataOf(b) != DataOf(a) && Payload(w, DataOf(a), a) == Payload(m, DataOf(a), a)
  {
    var raw, live := map[a.base := Extent(a)], map[DataOf(a) := a];
    PlacedKeeps(m, raw, live, false, NULL, b, m, true, Before(false, 0, 0));
    w := Placed(m, b, Before(false, 0, 0), true);
    assert Payload(w, DataOf(a), live[DataOf(a)]) == Payload(m, DataOf(a), live[DataOf(a)]);
  }

  /** What the move puts further on. */
  lemma MovedByte(f: Bytes, b: Block, o: Before, i: nat, j: nat)
    requires o.keep && o.shift < b.shift && b.base + o.shift + o.size <= |f| && i < |f|
    requires DataOf(b) <= i < DataOf(b) + o.size && j == i - (b.shift - o.shift)
    ensures Moved(f, b, o)[i] == f[j]
  {
    var data := Read(f, b.base + o.shift, o.size);
    WriteAt(f, DataOf(b), data, i);
    assert data[i - DataOf(b)] == f[j];
  }

  lemma MovedFar(m: Bytes, b: Block, o: Before, i: nat, j: nat)
    requires Sane(b) && b.base + Extent(b) <= |m| && o.keep && o.shift < b.shift && b.base + o.shift + o.size <= |m|
    requires DataOf(b) <= i < DataOf(b) + o.size && i < |m| && j == i - (b.shift - o.shift) && b.base + Extent(b) <= j
    ensures Placed(m, b, o, false)[i] == m[j]
  {
    MovedByte(Format(m, b.base, b, b.shift), b, o, i, j);
    FormatOutside(m, b, j);
  }

  /**
   * Two blocks, 100 bytes and 8 behind them. The system shrinks the first in place, to no bytes at an alignment of 64.
   * The move then writes over the neighbour's header: the allocator no longer finds it.
   */
  lemma ShrinkingDestroysNeighbour(m0: Bytes) returns (m: Bytes, raw: Raw, live: Live, v: Bytes)
    requires |m0| == 512
    ensures HeapOk(m, raw, live) && 88 in live && 224 in live && live[88] == OLD && live[224] == NEIGHBOUR
    ensures Granted(m, m, raw, GivenBack(live, true, 88), NEW.base, Extent(NEW)) && live[88].power <= NEW.power
    ensures v == Placed(m, NEW, Earlier(live, true, 88), false)
    ensures 224 in Staying(live, true, 88) && 8 <= AlignDown(224, 8) <= |m| == |v|
    ensures Mem2Hdr(m, 224) == NEIGHBOUR.base && Mem2Hdr(v, 224) == NULL
    ensures forall raw2: Raw, live2: Live | 224 in live2 && live2[224] == NEIGHBOUR :: !HeapOk(v, raw2, live2)
  {
    ExampleSane();
    var m1 := FirstBlock(m0, OLD);
    m := SecondBlock(m1, OLD, NEIGHBOUR);
    raw, live := map[64 := 132][200 := 40], map[88 := OLD][224 := NEIGHBOUR];
    LiveHeader(m, raw, live, 224);
    v := Placed(m, NEW, Earlier(live, true, 88), false);
    forall i: nat | 216 <= i < 224 ensures v[i] == 0 {
      MovedFar(m, NEW, Earlier(live, true, 88), i, i - 40);
      assert m[i - 40] == Payload(m, 88, OLD)[i - 128];
    }
    ValZero(v[216..224]);
    Lost(v);
  }

  lemma Lost(v: Bytes)
    requires |v| == 512 && Val(v[216..224]) == 0
    ensures 8 <= AlignDown(224, 8) <= |v| && Mem2Hdr(v, 224) == NULL
    ensures forall raw2: Raw, live2: Live | 224 in live2 && live2[224] == NEIGHBOUR :: !HeapOk(v, raw2, live2)
  {
    assert Word(v, 216) == 0;
    forall raw2: Raw, live2: Live | 224 in live2 && live2[224] == NEIGHBOUR ensures !HeapOk(v, raw2, live2) {
      if HeapOk(v, raw2, live2) {
        LiveHeader(v, raw2, live2, 224);
      }
    }
  }

  const WIDER: Block := Block(64, 100, 6, 64)

  /**
   * One block of 100 zero bytes. The system grows it in place, to the same size at an alignment of 64. Nothing is
   * written outside it, but the link, the address 64, is written below the new data and so into the old payload,
   * and then moved with it.
   */
  lemma LinkDestroysPayload(m0: Bytes) returns (m: Bytes, raw: Raw, live: Live, v: Bytes)
    requires |m0| == 512
    ensures HeapOk(m, raw, live) && 88 in live && live[88] == OLD && AllZero(Payload(m, 88, OLD))
    ensures Granted(m, m, raw, GivenBack(live, true, 88), WIDER.base, Extent(WIDER)) && live[88].power <= WIDER.power
    ensures WIDER == NewBlock(64, 100, 64) && Contained(WIDER, Earlier(live, true, 88))
    ensures v == Placed(m, WIDER, Earlier(live, true, 88), false)
    ensures Allocated(m, raw, live, true, 88, WIDER, false, v)
    ensures |Payload(m, 88, OLD)| == 100 == |Payload(v, 128, WIDER)|
    ensures Payload(m, 88, OLD)[32] == 0 && Payload(v, 128, WIDER)[32] == 64
  {
    ExampleSane();
    m := FirstBlock(m0, OLD);
    raw, live := map[64 := 132], map[88 := OLD];
    v := Placed(m, WIDER, Earlier(live, true, 88), false);
    PlacedKeeps(m, raw, live, true, 88, WIDER, m, false, Earlier(live, true, 88));
    LinkByte(Payload(m, 88, OLD), Payload(v, 128, WIDER));
  }

  lemma LinkByte(o: Bytes, p: Bytes)
    requires |o| == 100 == |p| && p[..100] == UnderLink(o[..100], 24, 64, LE(64, 8))
    ensures p[32] == 64
  {
    UnderLinkAt(o[..100], 24, 64, LE(64, 8), 32);
    assert p[32] == p[..100][32];
  }
}
