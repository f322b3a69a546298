/** One block of the header-carrying allocator: its layout, and what a reallocation does to its payload. */
module AllocatorBlock {
  import opened Memory

  /** VSC__MEMHDR_SIG */
  const SIG: nat := 0xFEED_5EED_FEED_5EED

  /** sizeof(MemHeader): a size, an alignment word and the signature. */
  const HEADER: nat := 24

  /** An allocation: where its header is, how many bytes were asked for, the power of two it is aligned to, the data's offset. */
  datatype Block = Block(base: nat, size: nat, power: nat, shift: nat)

  /** What the allocator asks the system for. */
  function Extent(b: Block): (n: nat)
    ensures n > HEADER + b.size
  {
    HEADER + b.size + Pow2(b.power)
  }

  function DataOf(b: Block): nat {
    b.base + b.shift
  }

  /** vsc__allocator_hdr2mem */
  function Hdr2Mem(base: nat, alignment: nat): nat
    requires alignment > 0
  {
    AlignUp(base + HEADER, alignment)
  }

  /** The data is a whole number of words behind the header, close enough to leave room for the payload. */
  predicate Sane(b: Block) {
    && 3 <= b.power < 64 && Aligned(b.base, 8) && b.base + Extent(b) <= ADDRESS_SPACE
    && HEADER <= b.shift < HEADER + Pow2(b.power) && Aligned(b.shift, 8)
  }

  /** A block laid out by hdr2mem is sane, and its data is aligned as asked. */
  lemma Hdr2MemSane(base: nat, size: nat, power: nat, p: nat)
    requires 3 <= power < 64 && Aligned(base, 8) && p == Hdr2Mem(base, Pow2(power))
    requires base + HEADER + size + Pow2(power) <= ADDRESS_SPACE
    ensures p >= base + HEADER && Sane(Block(base, size, power, p - base)) && Aligned(p, Pow2(power))
  {
    AlignUpLeast(base + HEADER, Pow2(power));
    Pow2Eight();
    AlignedPart(p, 3, power);
    AlignedSum(base, p - base, 8);
  }

  /** d is the raw block of b with its header, and its back-link when there is padding. */
  predicate Formatted(d: Bytes, b: Block) {
    && |d| == Extent(b)
    && HEADER <= b.shift && b.shift + b.size <= |d|
    && WordsAt(d, 0, HeaderOf(b))
    && (b.shift != HEADER ==> b.shift >= 8 && WordsAt(d, b.shift - 8, [b.base]))
  }

  // ----- writing the header and the back-link

  /** Memory with the back-link of b, if there is padding. */
  function Linked(m: Bytes, base: nat, b: Block, shift: nat): (r: Bytes)
    requires shift >= 8
    ensures |r| == |m|
  {
    if shift != HEADER then Write(m, base + shift - 8, LE(b.base, 8)) else m
  }

  /** The words of the header of b. */
  function HeaderOf(b: Block): (r: seq<nat>)
    ensures |r| == 3
  {
    [b.size, b.power, SIG]
  }

  /** Memory with the header of b. */
  function Headed(m: Bytes, base: nat, b: Block): (r: Bytes)
    ensures |r| == |m|
  {
    WriteWords(m, base, HeaderOf(b))
  }

  /** The code writes the link first. */
  function Format(m: Bytes, base: nat, b: Block, shift: nat): (r: Bytes)
    requires shift >= 8
    ensures |r| == |m|
  {
    Headed(Linked(m, base, b, shift), base, b)
  }

  lemma HeaderWords(d: Bytes, b: Block)
    requires |d| >= HEADER && b.size < ADDRESS_SPACE && b.power < ADDRESS_SPACE
    ensures WordsAt(Headed(d, 0, b), 0, HeaderOf(b)) && Headed(d, 0, b)[HEADER..] == d[HEADER..]
  {
    WordsWritten(d, 0, HeaderOf(b));
    WriteWordsOutside(d, 0, HeaderOf(b), HEADER, |d| - HEADER);
    assert d[HEADER..] == d[HEADER..|d|];
  }

  lemma LinkedWord(d: Bytes, b: Block)
    requires Sane(b) && |d| == Extent(b) && b.shift >= HEADER + 8 && b.shift < |d|
    ensures WordsAt(Linked(d, 0, b, b.shift), b.shift - 8, [b.base])
  {
    WriteWord(d, b.shift - 8, b.base);
  }

  /** What Format makes of a block of the right length. */
  lemma FormatWorks(d: Bytes, b: Block)
    requires Sane(b) && |d| == Extent(b)
    ensures Formatted(Format(d, 0, b, b.shift), b)
    ensures Format(d, 0, b, b.shift)[HEADER..] == Linked(d, 0, b, b.shift)[HEADER..]
  {
    var s := b.shift;
    var d0 := Linked(d, 0, b, s);
    HeaderWords(d0, b);
    if s != HEADER {
      LinkedWord(d, b);
      BehindHeader(d0, Headed(d0, 0, b), s - 8, 8);
      WordsAlike(d0, Headed(d0, 0, b), s - 8, [b.base]);
    }
  }

  /** Writing from the data on keeps the header and the back-link. */
  lemma WriteKeepsFormat(d: Bytes, b: Block, a: nat, data: Bytes)
    requires Sane(b) && Formatted(d, b) && b.shift <= a
    ensures Formatted(Write(d, a, data), b)
  {
    WriteKeepsWords(d, a, data, 0, HeaderOf(b));
    if b.shift != HEADER {
      WriteKeepsWords(d, a, data, b.shift - 8, [b.base]);
    }
  }

  // ----- finding the header again

  /** vsc__allocator_mem2hdr */
  function Mem2Hdr(m: Bytes, p: nat): int
    requires 8 <= AlignDown(p, 8) <= |m|
  {
    var end := AlignDown(p, 8);
    if Word(m, end - 8) == SIG then end - HEADER else Word(m, end - 8)
  }

  lemma AlignDownFixed(p: nat)
    requires Aligned(p, 8)
    ensures AlignDown(p, 8) == p
  {
  }

  lemma SigNotAligned(x: nat)
    requires Aligned(x, 8)
    ensures x != SIG
  {
  }

  lemma WordInside(m: Bytes, base: nat, n: nat, x: nat)
    requires base + n <= |m| && x + 8 <= n
    ensures Word(m[base..base + n], x) == Word(m, base + x)
  {
    SliceOfSlice(m, base, base + n, x, x + 8);
  }

  /** From the data pointer of a formatted block the allocator finds that block's own header. */
  lemma Mem2HdrFinds(m: Bytes, b: Block)
    requires Sane(b) && b.base + Extent(b) <= |m| && Formatted(m[b.base..b.base + Extent(b)], b)
    ensures var p := DataOf(b); 8 <= AlignDown(p, 8) <= |m| && Mem2Hdr(m, p) == b.base
  {
    var d := m[b.base..b.base + Extent(b)];
    AlignDownFixed(DataOf(b));
    WordInside(m, b.base, Extent(b), b.shift - 8);
    SigNotAligned(b.base);
    if b.shift == HEADER {
      WordAtIndex(d, 0, HeaderOf(b), 2);
    } else {
      WordAtIndex(d, b.shift - 8, [b.base], 0);
    }
  }

  /** And in it what was asked for. */
  lemma HeaderReads(m: Bytes, b: Block)
    requires Sane(b) && b.base + Extent(b) <= |m| && Formatted(m[b.base..b.base + Extent(b)], b)
    ensures Word(m, b.base) == b.size && Word(m, b.base + 8) == b.power
  {
    var d := m[b.base..b.base + Extent(b)];
    WordAtIndex(d, 0, HeaderOf(b), 0);
    WordAtIndex(d, 0, HeaderOf(b), 1);
    WordInside(m, b.base, Extent(b), 0);
    WordInside(m, b.base, Extent(b), 8);
  }

  // ----- reallocation

  function ZeroBytes(n: nat): (r: Bytes)
    ensures |r| == n
  {
    seq(n, i => 0)
  }

  /** What an earlier allocation hands over: its shift and its size. Keep is false when there is none. */
  datatype Before = Before(keep: bool, shift: nat, size: nat)

  /** Nothing is moved, or the old size fits behind the new shift. */
  predicate Contained(b: Block, o: Before) {
    !o.keep || o.shift == b.shift || b.shift + o.size <= Extent(b)
  }

  function Min(a: nat, b: nat): nat {
    if a < b then a else b
  }

  /**
   * A payload o that started at shift s, after the 8 bytes of the back-link are written below shift t.
   * The link is written before the payload is moved, so where the two overlap the link wins.
   */
  function UnderLink(o: Bytes, s: nat, t: nat, link: Bytes): (r: Bytes)
    requires |link| == 8
    ensures |r| == |o|
  {
    if o == [] then []
    else [if t - 8 <= s < t then link[s - (t - 8)] else o[0]] + UnderLink(o[1..], s + 1, t, link)
  }

  lemma {:induction false} UnderLinkAt(o: Bytes, s: nat, t: nat, link: Bytes, i: nat)
    requires |link| == 8 && i < |o|
    ensures UnderLink(o, s, t, link)[i] == (if t - 8 <= s + i < t then link[s + i - (t - 8)] else o[i])
    decreases i
  {
    if i > 0 {
      UnderLinkAt(o[1..], s + 1, t, link, i - 1);
    }
  }

  /** The link misses the payload. */
  predicate Clear(s: nat, t: nat, n: nat) {
    t <= s || s + n + 8 <= t
  }

  lemma ClearKeeps(o: Bytes, s: nat, t: nat, link: Bytes)
    requires |link| == 8 && Clear(s, t, |o|)
    ensures UnderLink(o, s, t, link) == o
  {
    forall i | 0 <= i < |o| ensures UnderLink(o, s, t, link)[i] == o[i] {
      UnderLinkAt(o, s, t, link, i);
    }
  }

  /** Where the link does not miss the payload, its bytes are what is left. */
  lemma NotClearLoses(o: Bytes, s: nat, t: nat, link: Bytes)
    requires |link| == 8 && s % 8 == 0 && t % 8 == 0 && !Clear(s, t, |o|)
    ensures 0 <= t - 8 - s < |o|
    ensures forall i :: t - 8 - s <= i < Min(t - s, |o|) ==> UnderLink(o, s, t, link)[i] == link[i - (t - 8 - s)]
  {
    forall i | t - 8 - s <= i < Min(t - s, |o|) ensures UnderLink(o, s, t, link)[i] == link[i - (t - 8 - s)] {
      UnderLinkAt(o, s, t, link, i);
    }
  }

  /** Whatever the link is, every payload survives it exactly when it misses them. */
  lemma SurvivesIffClear(s: nat, t: nat, n: nat, link: Bytes)
    requires |link| == 8 && s % 8 == 0 && t % 8 == 0
    ensures Clear(s, t, n) <==> forall o: Bytes | |o| == n :: UnderLink(o, s, t, link) == o
  {
    if Clear(s, t, n) {
      forall o: Bytes | |o| == n ensures UnderLink(o, s, t, link) == o {
        ClearKeeps(o, s, t, link);
      }
    } else {
      var o: Bytes := seq(n, i => if link[0] == 0 then 1 else 0);
      NotClearLoses(o, s, t, link);
      assert UnderLink(o, s, t, link)[t - 8 - s] == link[0];
      assert o[t - 8 - s] != link[0];
    }
  }

  // ----- the writes stay inside the block

  /** w is m but for its bytes at base, which are d. */
  predicate Replaced(m: Bytes, w: Bytes, base: nat, d: Bytes) {
    && base + |d| <= |m| == |w| && w[base..base + |d|] == d
    && w[0..base] == m[0..base] && w[base + |d|..|m|] == m[base + |d|..|m|]
  }

  lemma ReplacedSelf(m: Bytes, base: nat, n: nat)
    requires base + n <= |m|
    ensures Replaced(m, m, base, m[base..base + n])
  {
  }

  lemma ReplacedWrite(m: Bytes, w: Bytes, base: nat, d: Bytes, k: nat, data: Bytes)
    requires Replaced(m, w, base, d) && k + |data| <= |d|
    ensures Replaced(m, Write(w, base + k, data), base, Write(d, k, data))
  {
    WriteInside(w, base + k, data, base, |d|);
    WriteOutside(w, base + k, data, 0, base);
    WriteOutside(w, base + k, data, base + |d|, |m| - base - |d|);
  }

  lemma ReplacedKeeps(m: Bytes, w: Bytes, base: nat, d: Bytes, x: nat, l: nat)
    requires Replaced(m, w, base, d) && x + l <= |m| && (x + l <= base || base + |d| <= x)
    ensures w[x..x + l] == m[x..x + l]
  {
    if x + l <= base {
      SliceOfSlice(w, 0, base, x, x + l);
      SliceOfSlice(m, 0, base, x, x + l);
    } else {
      SliceOfSlice(w, base + |d|, |m|, x - base - |d|, x + l - base - |d|);
      SliceOfSlice(m, base + |d|, |m|, x - base - |d|, x + l - base - |d|);
    }
  }

  lemma FormatInside(m: Bytes, w: Bytes, base: nat, d: Bytes, b: Block, shift: nat)
    requires Replaced(m, w, base, d) && HEADER <= shift <= |d| && (shift == HEADER || shift >= HEADER + 8)
    ensures Replaced(m, Format(w, base, b, shift), base, Format(d, 0, b, shift))
  {
    if shift != HEADER {
      ReplacedWrite(m, w, base, d, shift - 8, LE(b.base, 8));
    }
    WordsInside(m, Linked(w, base, b, shift), base, Linked(d, 0, b, shift), 0, HeaderOf(b));
  }

  lemma {:induction false} WordsInside(m: Bytes, w: Bytes, base: nat, d: Bytes, k: nat, words: seq<nat>)
    requires Replaced(m, w, base, d) && k + 8 * |words| <= |d|
    ensures Replaced(m, WriteWords(w, base + k, words), base, WriteWords(d, k, words))
    decreases |words|
  {
    if words != [] {
      ReplacedWrite(m, w, base, d, k, LE(words[0], 8));
      WordsInside(m, Write(w, base + k, LE(words[0], 8)), base, Write(d, k, LE(words[0], 8)), k + 8, words[1..]);
    }
  }

  // ----- what the new block holds

  /** After the link is written, what used to be the payload is that payload under the link. */
  lemma LinkOverPayload(d: Bytes, b: Block, s: nat, n: nat)
    requires HEADER <= b.shift <= |d| && HEADER <= s && s + n <= |d|
    requires b.shift == HEADER || b.shift >= HEADER + 8
    ensures Linked(d, 0, b, b.shift)[s..s + n] == UnderLink(d[s..s + n], s, b.shift, LE(b.base, 8))
  {
    var t, link := b.shift, LE(b.base, 8);
    if t == HEADER {
      ClearKeeps(d[s..s + n], s, t, link);
    } else {
      var l, r := Linked(d, 0, b, t)[s..s + n], UnderLink(d[s..s + n], s, t, link);
      forall i | 0 <= i < n ensures l[i] == r[i] {
        UnderLinkAt(d[s..s + n], s, t, link, i);
        WriteAt(d, t - 8, link, s + i);
        assert l[i] == Write(d, t - 8, link)[s + i];
      }
    }
  }

  lemma FormatOverPayload(d: Bytes, b: Block, s: nat, n: nat)
    requires Sane(b) && |d| == Extent(b) && HEADER <= s && s + n <= |d|
    ensures Format(d, 0, b, b.shift)[s..s + n] == UnderLink(d[s..s + n], s, b.shift, LE(b.base, 8))
  {
    FormatWorks(d, b);
    LinkOverPayload(d, b, s, n);
    BehindHeader(Format(d, 0, b, b.shift), Linked(d, 0, b, b.shift), s, n);
  }

  lemma BehindHeader(f: Bytes, l: Bytes, s: nat, n: nat)
    requires HEADER <= s && s + n <= |f| == |l| && f[HEADER..] == l[HEADER..]
    ensures f[s..s + n] == l[s..s + n]
  {
    assert f[HEADER..] == f[HEADER..|f|] && l[HEADER..] == l[HEADER..|l|];
    SliceOfSlice(f, HEADER, |f|, s - HEADER, s + n - HEADER);
    SliceOfSlice(l, HEADER, |l|, s - HEADER, s + n - HEADER);
  }

  /** The part of a new payload the old one does not reach. */
  function Tail(payload: Bytes, o: Before): Bytes {
    var done := if o.keep then o.size else 0;
    if done <= |payload| then payload[done..] else []
  }

  predicate AllZero(s: Bytes) {
    forall i | 0 <= i < |s| :: s[i] == 0
  }

  // ----- the contract of the writes, in memory

  /** Only the raw block of b differs between w and v, and v has it formatted. */
  predicate LaidOut(w: Bytes, v: Bytes, b: Block) {
    && |v| == |w| && b.base + Extent(b) <= |v|
    && Replaced(w, v, b.base, v[b.base..b.base + Extent(b)])
    && Formatted(v[b.base..b.base + Extent(b)], b)
  }

  /** The n bytes v has at y are those w has at x, but for the link of b where it came across them. */
  predicate LaidKept(w: Bytes, x: nat, v: Bytes, y: nat, b: Block, n: nat) {
    && x >= b.base && x + n <= |w| && y + n <= |v|
    && v[y..y + n] == UnderLink(w[x..x + n], x - b.base, b.shift, LE(b.base, 8))
  }

  lemma FormatLaysOut(w: Bytes, b: Block)
    requires Sane(b) && b.base + Extent(b) <= |w|
    ensures LaidOut(w, Format(w, b.base, b, b.shift), b)
    ensures Format(w, b.base, b, b.shift)[b.base..b.base + Extent(b)] == Format(w[b.base..b.base + Extent(b)], 0, b, b.shift)
  {
    var d := w[b.base..b.base + Extent(b)];
    ReplacedSelf(w, b.base, Extent(b));
    FormatInside(w, w, b.base, d, b, b.shift);
    FormatWorks(d, b);
    LaidOutAs(w, Format(w, b.base, b, b.shift), b, Format(d, 0, b, b.shift));
  }

  lemma KeptInMemory(w: Bytes, v: Bytes, base: nat, l: nat, s: nat, t: nat, n: nat, d: Bytes, e: Bytes, link: Bytes)
    requires base + l <= |w| == |v| && s + n <= l && |link| == 8
    requires d == w[base..base + l] && e == v[base..base + l]
    requires e[s..s + n] == UnderLink(d[s..s + n], s, t, link)
    ensures v[base + s..base + s + n] == UnderLink(w[base + s..base + s + n], s, t, link)
  {
    SliceOfSlice(v, base, base + l, s, s + n);
    SliceOfSlice(w, base, base + l, s, s + n);
  }

  /** The old payload once link and header are written. */
  lemma FormatLeaves(w: Bytes, b: Block, m: Bytes, x: nat, n: nat)
    requires Sane(b) && b.base + Extent(b) <= |w| && m == Format(w, b.base, b, b.shift)
    requires b.base + HEADER <= x && x + n <= b.base + Extent(b)
    ensures LaidKept(w, x, m, x, b, n)
  {
    var d := w[b.base..b.base + Extent(b)];
    FormatLaysOut(w, b);
    FormatOverPayload(d, b, x - b.base, n);
    LeftInMemory(w, m, b, x, n, d, Format(d, 0, b, b.shift));
  }

  lemma LeftInMemory(w: Bytes, m: Bytes, b: Block, x: nat, n: nat, d: Bytes, e: Bytes)
    requires b.base + Extent(b) <= |w| == |m| && b.base <= x && x + n <= b.base + Extent(b)
    requires d == w[b.base..b.base + Extent(b)] && e == m[b.base..b.base + Extent(b)]
    requires e[x - b.base..x - b.base + n] == UnderLink(d[x - b.base..x - b.base + n], x - b.base, b.shift, LE(b.base, 8))
    ensures LaidKept(w, x, m, x, b, n)
  {
    KeptInMemory(w, m, b.base, Extent(b), x - b.base, b.shift, n, d, e, LE(b.base, 8));
  }

  /** Writing in the data of a block, be it the library or its user, keeps header and link and stays inside. */
  lemma WriteInData(w: Bytes, m: Bytes, b: Block, a: nat, data: Bytes)
    requires Sane(b) && LaidOut(w, m, b) && DataOf(b) <= a && a + |data| <= b.base + Extent(b)
    ensures LaidOut(w, Write(m, a, data), b)
  {
    var e := m[b.base..b.base + Extent(b)];
    WriteKeepsFormat(e, b, a - b.base, data);
    ReplacedWrite(w, m, b.base, e, a - b.base, data);
    LaidOutAs(w, Write(m, a, data), b, Write(e, a - b.base, data));
  }

  lemma LaidOutAs(w: Bytes, v: Bytes, b: Block, e: Bytes)
    requires Replaced(w, v, b.base, e) && Formatted(e, b)
    ensures LaidOut(w, v, b) && v[b.base..b.base + Extent(b)] == e
  {
  }

  /** A write is read back, any part of it. */
  lemma WritePart(m: Bytes, a: nat, data: Bytes, n: nat)
    requires a + |data| <= |m| && n <= |data|
    ensures Write(m, a, data)[a..a + n] == data[..n]
  {
    WriteReads(m, a, data);
    SliceOfSlice(Write(m, a, data), a, a + |data|, 0, n);
  }

  lemma ZerosBehind(v: Bytes, y: nat, done: nat, size: nat, o: Before)
    requires y + size <= |v| && done <= size && done == (if o.keep then o.size else 0)
    requires v[y + done..y + size] == ZeroBytes(size - done)
    ensures AllZero(Tail(v[y..y + size], o))
  {
    SliceOfSlice(v, y, y + size, done, size);
  }

  // ----- all of them

  /** n bytes at address a; what lies past the end of the address space reads as nothing. */
  function Read(m: Bytes, a: nat, n: nat): Bytes {
    if a + n <= |m| then m[a..a + n] else if a <= |m| then m[a..] else []
  }

  /** The payload moved from the old shift to the new one. */
  function Moved(m: Bytes, b: Block, o: Before): (r: Bytes)
    ensures |r| == |m|
  {
    if o.keep && o.shift != b.shift then Write(m, DataOf(b), Read(m, b.base + o.shift, o.size)) else m
  }

  /** The bytes of the new payload that the old one does not cover, cleared on request. */
  function Cleared(m: Bytes, b: Block, o: Before, zero: bool): (r: Bytes)
    ensures |r| == |m|
  {
    var done := if o.keep then o.size else 0;
    if zero && b.size > done then Write(m, DataOf(b) + done, ZeroBytes(b.size - done)) else m
  }

  /** Everything malloc_ writes after the system has given it the block: link, header, move, zeros. */
  function Placed(m: Bytes, b: Block, o: Before, zero: bool): (r: Bytes)
    requires b.shift >= 8
    ensures |r| == |m|
  {
    Cleared(Moved(Format(m, b.base, b, b.shift), b, o), b, o, zero)
  }

  lemma MovedLaid(w: Bytes, m: Bytes, b: Block, o: Before, n: nat)
    requires Sane(b) && LaidOut(w, m, b) && Contained(b, o) && n == Min(o.size, b.size)
    requires o.keep ==> o.shift + n <= Extent(b)
    ensures LaidOut(w, Moved(m, b, o), b)
    ensures o.keep ==> Moved(m, b, o)[DataOf(b)..DataOf(b) + n] == m[b.base + o.shift..b.base + o.shift + n]
  {
    if o.keep && o.shift != b.shift {
      MoveInData(w, m, b, b.base + o.shift, o.size, n);
      MoveReads(m, DataOf(b), b.base + o.shift, o.size, n);
    }
  }

  lemma MoveInData(w: Bytes, m: Bytes, b: Block, x: nat, size: nat, n: nat)
    requires Sane(b) && LaidOut(w, m, b) && x + n <= |m| && n <= size && b.shift + size <= Extent(b)
    ensures LaidOut(w, Write(m, DataOf(b), Read(m, x, size)), b)
  {
    ReadPart(m, x, size, n);
    WriteInData(w, m, b, DataOf(b), Read(m, x, size));
  }

  lemma ReadPart(m: Bytes, x: nat, size: nat, n: nat)
    requires x + n <= |m| && n <= size
    ensures n <= |Read(m, x, size)| <= size && Read(m, x, size)[..n] == m[x..x + n]
  {
    if x + size <= |m| {
      SliceOfSlice(m, x, x + size, 0, n);
    } else {
      assert m[x..] == m[x..|m|];
      SliceOfSlice(m, x, |m|, 0, n);
    }
  }

  lemma MoveReads(m: Bytes, y: nat, x: nat, size: nat, n: nat)
    requires x + n <= |m| && y + size <= |m| && n <= size
    ensures Write(m, y, Read(m, x, size))[y..y + n] == m[x..x + n]
  {
    ReadPart(m, x, size, n);
    WritePart(m, y, Read(m, x, size), n);
  }

  lemma ClearedLaid(w: Bytes, m: Bytes, b: Block, o: Before, zero: bool, n: nat)
    requires Sane(b) && LaidOut(w, m, b) && n == Min(o.size, b.size)
    ensures LaidOut(w, Cleared(m, b, o, zero), b)
    ensures o.keep ==> Cleared(m, b, o, zero)[DataOf(b)..DataOf(b) + n] == m[DataOf(b)..DataOf(b) + n]
  {
    var p, done := DataOf(b), if o.keep then o.size else 0;
    if zero && b.size > done {
      WriteInData(w, m, b, p + done, ZeroBytes(b.size - done));
      WriteOutside(m, p + done, ZeroBytes(b.size - done), p, done);
    }
  }

  lemma ClearedTail(m: Bytes, b: Block, o: Before)
    requires DataOf(b) + b.size <= |m|
    ensures AllZero(Tail(Cleared(m, b, o, true)[DataOf(b)..DataOf(b) + b.size], o))
  {
    var p, done := DataOf(b), if o.keep then o.size else 0;
    if b.size > done {
      var data := ZeroBytes(b.size - done);
      WriteReads(m, p + done, data);
      ZerosBehind(Write(m, p + done, data), p, done, b.size, o);
    }
  }

  /** A contained placement lays the block out and touches nothing else. */
  lemma PlacedLaid(w: Bytes, b: Block, o: Before, zero: bool)
    requires Sane(b) && b.base + Extent(b) <= |w| && Contained(b, o)
    requires o.keep ==> o.shift + Min(o.size, b.size) <= Extent(b)
    ensures LaidOut(w, Placed(w, b, o, zero), b)
  {
    var m, n := Format(w, b.base, b, b.shift), Min(o.size, b.size);
    FormatLaysOut(w, b);
    MovedLaid(w, m, b, o, n);
    ClearedLaid(w, Moved(m, b, o), b, o, zero, n);
  }

  /** What of the old payload is in the new one: all of it, but for what the link overwrote on the way. */
  lemma PlacedKept(w: Bytes, b: Block, o: Before, zero: bool, n: nat)
    requires Sane(b) && b.base + Extent(b) <= |w| && Contained(b, o) && n == Min(o.size, b.size)
    requires o.keep && HEADER <= o.shift && o.shift + n <= Extent(b)
    ensures LaidKept(w, b.base + o.shift, Placed(w, b, o, zero), DataOf(b), b, n)
  {
    FormatLaysOut(w, b);
    FormatLeaves(w, b, Format(w, b.base, b, b.shift), b.base + o.shift, n);
    KeptAfterFormat(w, Format(w, b.base, b, b.shift), b, o, zero, n);
  }

  lemma KeptAfterFormat(w: Bytes, m: Bytes, b: Block, o: Before, zero: bool, n: nat)
    requires Sane(b) && LaidOut(w, m, b) && Contained(b, o) && n == Min(o.size, b.size)
    requires o.keep && o.shift + n <= Extent(b) && LaidKept(w, b.base + o.shift, m, b.base + o.shift, b, n)
    ensures LaidKept(w, b.base + o.shift, Cleared(Moved(m, b, o), b, o, zero), DataOf(b), b, n)
  {
    AfterFormat(w, m, b, o, zero, n);
  }

  lemma AfterFormat(w: Bytes, m: Bytes, b: Block, o: Before, zero: bool, n: nat)
    requires Sane(b) && LaidOut(w, m, b) && Contained(b, o) && n == Min(o.size, b.size)
    requires o.keep && o.shift + n <= Extent(b)
    ensures Cleared(Moved(m, b, o), b, o, zero)[DataOf(b)..DataOf(b) + n] == m[b.base + o.shift..b.base + o.shift + n]
  {
    MovedLaid(w, m, b, o, n);
    ClearedLaid(w, Moved(m, b, o), b, o, zero, n);
  }

  /** All that the writes promise: layout, kept payload, cleared tail. */
  predicate Laid(w: Bytes, v: Bytes, b: Block, o: Before, zero: bool) {
    && LaidOut(w, v, b) && DataOf(b) + b.size <= |v|
    && (o.keep ==> LaidKept(w, b.base + o.shift, v, DataOf(b), b, Min(o.size, b.size)))
    && (zero ==> AllZero(Tail(v[DataOf(b)..DataOf(b) + b.size], o)))
  }

  lemma PlacedIsLaid(w: Bytes, b: Block, o: Before, zero: bool)
    requires Sane(b) && b.base + Extent(b) <= |w| && Contained(b, o)
    requires o.keep ==> HEADER <= o.shift && o.shift + Min(o.size, b.size) <= Extent(b)
    ensures Laid(w, Placed(w, b, o, zero), b, o, zero)
  {
    PlacedLaid(w, b, o, zero);
    if o.keep {
      PlacedKept(w, b, o, zero, Min(o.size, b.size));
    }
    if zero {
      ClearedTail(Moved(Format(w, b.base, b, b.shift), b, o), b, o);
    }
  }
}
