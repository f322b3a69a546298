/** vsc_crc32 and vsc_crc32c against polynomial long division. */
module Crc32 {
  import opened Stripes
  import opened BitDivision
  import opened Crc32Words
  import opened Crc32Tables

  /** The bits of a byte in transmission order, lowest first. */
  function ByteBits(b: bv8): (r: Bits)
    ensures |r| == 8
  {
    BitsOf(b as bv32, 8)
  }

  function MessageBits(data: Bytes): (r: Bits)
    ensures |r| == 8 * |data|
  {
    if data == [] then [] else ByteBits(data[0]) + MessageBits(data[1..])
  }

  /**
   * A CRC by its definition: the complement of the remainder, by the polynomial, of the message
   * with its first 32 bits complemented and 32 zeros appended.
   */
  function Checksum(poly: bv32, data: Bytes): (r: Bits)
    ensures |r| == 32
  {
    Not(Remainder(Register(poly), Overlay(Ones(32), MessageBits(data) + Zeros(32))))
  }

  /** The register after a message, started at all ones. */
  function After(poly: bv32, data: Bytes): (r: Bits)
    ensures |r| == 32
  {
    Feed(Register(poly), Ones(32), MessageBits(data))
  }

  lemma AfterIsChecksum(poly: bv32, data: Bytes)
    ensures Checksum(poly, data) == Not(After(poly, data))
  {
    FeedDivides(Register(poly), Ones(32), MessageBits(data));
  }

  // ----- one byte

  ghost predicate Generates(t: bv32 -> bv32, poly: bv32) {
    forall i | i <= 0xFF :: t(i) == StepByte(i, poly)
  }

  lemma StepByteAlike(i: bv32, poly: bv32)
    ensures Register(StepByte(i, poly)) == Feed(Register(poly), Register(i), Zeros(8))
  {
    StepByteIterates(i, poly);
    IterateAlike(i, poly, 8);
  }

  lemma LowByte(x: bv32)
    ensures x & 0xFF <= 0xFF
  {
  }

  lemma LookUp(t: bv32 -> bv32, poly: bv32, x: bv32)
    requires Generates(t, poly)
    ensures Register(t(x & 0xFF)) == Feed(Register(poly), Pad(Register(x)[..8], 32), Zeros(8))
  {
    LowByte(x);
    StepByteAlike(x & 0xFF, poly);
    RegisterLow8(x);
  }

  /** x is the register c with a byte, whose bits are d, added; e the table entry, s the shifted register. */
  lemma WordStep(poly: bv32, c: bv32, x: bv32, e: bv32, s: bv32, next: bv32, d: Bits)
    requires |d| == 8
    requires Register(x) == Xor(Register(c), Pad(d, 32))
    requires Register(e) == Feed(Register(poly), Pad(Register(x)[..8], 32), Zeros(8))
    requires Register(s) == Register(c)[8..] + Zeros(8)
    requires Register(next) == Xor(Register(e), Register(s))
    ensures Register(next) == Feed(Register(poly), Register(c), d)
  {
    FeedPart(Register(poly), Register(c), Register(x), d, 8);
  }

  lemma ByteMasked(b: bv8)
    ensures (b as bv32) & 0xFF == b as bv32
  {
  }

  lemma ByteRegister(b: bv8)
    ensures Register(b as bv32) == Pad(ByteBits(b), 32)
  {
    ByteMasked(b);
    RegisterLow8(b as bv32);
  }

  lemma XorIs(a: bv32, b: bv32, x: bv32)
    requires x == a ^ b
    ensures Register(x) == Xor(Register(a), Register(b))
  {
    RegisterXor(a, b);
  }

  lemma ShiftIs(c: bv32, s: bv32)
    requires s == c >> 8
    ensures Register(s) == Register(c)[8..] + Zeros(8)
  {
    RegisterShift8(c);
  }

  lemma EntryIs(t: bv32 -> bv32, poly: bv32, x: bv32, i: bv32)
    requires Generates(t, poly) && i == x & 0xFF
    ensures Register(t(i)) == Feed(Register(poly), Pad(Register(x)[..8], 32), Zeros(8))
  {
    LookUp(t, poly, x);
  }

  lemma WordIs(b: bv8, w: bv32)
    requires w == b as bv32
    ensures Register(w) == Pad(ByteBits(b), 32)
  {
    ByteRegister(b);
  }

  /** The words one pass of the loop goes through, from the register c and the byte b to the next register. */
  predicate Pass(t: bv32 -> bv32, c: bv32, b: bv8, w: bv32, x: bv32, i: bv32, s: bv32, next: bv32) {
    w == b as bv32 && x == c ^ w && i == x & 0xFF && s == c >> 8 && next == t(i) ^ s
  }

  /** A table entry and a shift do to the register what the eight bits of a byte do. */
  lemma ByteStep(t: bv32 -> bv32, poly: bv32, c: bv32, b: bv8, w: bv32, x: bv32, i: bv32, s: bv32, next: bv32)
    requires Generates(t, poly) && Pass(t, c, b, w, x, i, s, next)
    ensures Register(next) == Feed(Register(poly), Register(c), ByteBits(b))
  {
    WordIs(b, w);
    XorIs(c, w, x);
    EntryIs(t, poly, x, i);
    ShiftIs(c, s);
    XorIs(t(i), s, next);
    WordStep(poly, c, x, t(i), s, next, ByteBits(b));
  }

  // ----- the loop

  lemma MessageSnoc(data: Bytes, b: bv8)
    ensures MessageBits(data + [b]) == MessageBits(data) + ByteBits(b)
  {
    MessageAppend(data, [b]);
  }

  lemma {:induction false} MessageAppend(a: Bytes, b: Bytes)
    ensures MessageBits(a + b) == MessageBits(a) + MessageBits(b)
  {
    if a == [] {
      assert a + b == b;
    } else {
      assert (a + b)[1..] == a[1..] + b;
      MessageAppend(a[1..], b);
    }
  }

  lemma AfterSnoc(poly: bv32, data: Bytes, b: bv8, c: bv32, next: bv32)
    requires Register(c) == After(poly, data)
    requires Register(next) == Feed(Register(poly), Register(c), ByteBits(b))
    ensures Register(next) == After(poly, data + [b])
  {
    MessageSnoc(data, b);
    FeedAppend(Register(poly), Ones(32), MessageBits(data), ByteBits(b));
  }

  lemma AtStart(poly: bv32)
    ensures Register(0xFFFF_FFFF) == After(poly, [])
  {
    AllOnes();
  }

  lemma Complement(poly: bv32, data: Bytes, c: bv32)
    requires Register(c) == After(poly, data)
    ensures Register(c ^ 0xFFFF_FFFF) == Checksum(poly, data)
  {
    AllOnes();
    RegisterXor(c, 0xFFFF_FFFF);
    AfterIsChecksum(poly, data);
    assert Xor(Register(c), Ones(32)) == Not(Register(c));
  }

  /** The first p bytes of buf have gone through the register. */
  ghost predicate Through(poly: bv32, buf: Bytes, p: nat, crc: bv32) {
    p <= |buf| && Register(crc) == After(poly, buf[..p])
  }

  lemma ThroughNext(poly: bv32, buf: Bytes, p: nat, crc: bv32, next: bv32)
    requires p < |buf| && Through(poly, buf, p, crc)
    requires Register(next) == Feed(Register(poly), Register(crc), ByteBits(buf[p]))
    ensures Through(poly, buf, p + 1, next)
  {
    AfterSnoc(poly, buf[..p], buf[p], crc, next);
    assert buf[..p + 1] == buf[..p] + [buf[p]];
  }

  lemma ThroughAll(poly: bv32, buf: Bytes, crc: bv32)
    requires Through(poly, buf, |buf|, crc)
    ensures Register(crc ^ 0xFFFF_FFFF) == Checksum(poly, buf)
  {
    assert buf[..|buf|] == buf;
    Complement(poly, buf, crc);
  }

  lemma ThroughNone(poly: bv32, buf: Bytes)
    ensures Through(poly, buf, 0, 0xFFFF_FFFF)
  {
    AtStart(poly);
  }

  method Crc32x(buf: Bytes, table: bv32 -> bv32, ghost poly: bv32) returns (r: bv32)
    requires Generates(table, poly)
    ensures Register(r) == Checksum(poly, buf)
  {
    var crc: bv32 := 0xFFFF_FFFF;
    var p: nat := 0;
    ThroughNone(poly, buf);
    while p < |buf|
      invariant p <= |buf| && Through(poly, buf, p, crc)
    {
      var w := buf[p] as bv32;
      var x := crc ^ w;
      var i := x & 0xFF;
      var s := crc >> 8;
      var next := table(i) ^ s;
      ByteStep(table, poly, crc, buf[p], w, x, i, s, next);
      ThroughNext(poly, buf, p, crc, next);
      crc := next;
      p := p + 1;
    }
    ThroughAll(poly, buf, crc);
    r := crc ^ 0xFFFF_FFFF;
  }

  // ----- the two CRCs

  lemma Crc32Generates(f: bv32 -> bv32)
    requires f == Stepper(CRC32_POLY)
    ensures forall i | i <= 0xFF :: Crc32Table(i) == f(i)
  {
    Crc32Steps();
    forall i: bv32 | i <= 0xFF ensures Crc32Table(i) == f(i) {
      Crc32Select(f, i);
    }
  }

  lemma Crc32cGenerates(f: bv32 -> bv32)
    requires f == Stepper(CRC32C_POLY)
    ensures forall i | i <= 0xFF :: Crc32cTable(i) == f(i)
  {
    Crc32cSteps();
    forall i: bv32 | i <= 0xFF ensures Crc32cTable(i) == f(i) {
      Crc32cSelect(f, i);
    }
  }

  lemma TablesRight()
    ensures Generates(Crc32Lookup(), CRC32_POLY)
    ensures Generates(Crc32cLookup(), CRC32C_POLY)
  {
    Crc32Generates(Stepper(CRC32_POLY));
    Crc32cGenerates(Stepper(CRC32C_POLY));
  }

  function Crc32Lookup(): bv32 -> bv32 {
    i => if i <= 0xFF then Crc32Table(i) else 0
  }

  function Crc32cLookup(): bv32 -> bv32 {
    i => if i <= 0xFF then Crc32cTable(i) else 0
  }

  method VscCrc32(buf: Bytes) returns (r: bv32)
    ensures Register(r) == Checksum(CRC32_POLY, buf)
  {
    TablesRight();
    r := Crc32x(buf, Crc32Lookup(), CRC32_POLY);
  }

  method VscCrc32c(buf: Bytes) returns (r: bv32)
    ensures Register(r) == Checksum(CRC32C_POLY, buf)
  {
    TablesRight();
    r := Crc32x(buf, Crc32cLookup(), CRC32C_POLY);
  }
}
