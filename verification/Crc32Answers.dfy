/** The check values of the two CRCs: their checksums of the text "123456789". */
module Crc32Answers {
  import opened Stripes
  import opened BitDivision
  import opened Crc32Words
  import opened Crc32Tables
  import opened Crc32

  const DIGITS: Bytes := [0x31, 0x32, 0x33, 0x34, 0x35, 0x36, 0x37, 0x38, 0x39]

  /** A byte takes the register from c to next. */
  ghost predicate Fed(poly: bv32, c: bv32, b: bv8, next: bv32) {
    Register(next) == Feed(Register(poly), Register(c), ByteBits(b))
  }

  lemma FedBy(t: bv32 -> bv32, poly: bv32, c: bv32, b: bv8, w: bv32, x: bv32, i: bv32, s: bv32, next: bv32)
    requires Generates(t, poly) && Pass(t, c, b, w, x, i, s, next)
    ensures Fed(poly, c, b, next)
  {
    ByteStep(t, poly, c, b, w, x, i, s, next);
  }

  lemma Same(buf: Bytes, j: nat, b: bv8)
    requires j < 9 == |buf| && buf[..j + 1] == DIGITS[..j + 1] && b == DIGITS[j]
    ensures buf[j] == b && buf[..j] == DIGITS[..j]
  {
    assert buf[j] == buf[..j + 1][j];
    assert buf[..j] == buf[..j + 1][..j] && DIGITS[..j] == DIGITS[..j + 1][..j];
  }

  /** One byte more has gone through. */
  lemma On(poly: bv32, buf: Bytes, p: nat, c: bv32, next: bv32)
    requires p < |buf| && Through(poly, buf, p, c) && Fed(poly, c, buf[p], next)
    ensures Through(poly, buf, p + 1, next)
  {
    ThroughNext(poly, buf, p, c, next);
  }

  lemma Crc32Entry0() ensures Crc32Table(0x000000ce) == 0x7cdcefb7 { }

  lemma Crc32Entry1() ensures Crc32Table(0x0000007a) == 0xb0d09822 { }

  lemma Crc32Entry2() ensures Crc32Table(0x00000001) == 0x77073096 { }

  lemma Crc32Entry3() ensures Crc32Table(0x00000019) == 0x646ba8c0 { }

  lemma Crc32Entry4() ensures Crc32Table(0x00000069) == 0x346ed9fc { }

  lemma Crc32Entry5() ensures Crc32Table(0x000000d5) == 0xf6b9265b { }

  lemma Crc32Entry6() ensures Crc32Table(0x000000a9) == 0xaf0a1b4c { }

  lemma Crc32Entry7() ensures Crc32Table(0x00000058) == 0x65b0d9c6 { }

  lemma Crc32Entry8() ensures Crc32Table(0x00000069) == 0x346ed9fc { }

  lemma Crc32Pass1(t: bv32 -> bv32)
    requires t(0x000000ce) == 0x7cdcefb7
    ensures Pass(t, 0xffffffff, 0x31, 0x00000031, 0xffffffce, 0x000000ce, 0x00ffffff, 0x7c231048)
  {
  }

  lemma Crc32Fed1(t: bv32 -> bv32, poly: bv32)
    requires Generates(t, poly) && t(0x000000ce) == 0x7cdcefb7
    ensures Fed(poly, 0xffffffff, 0x31, 0x7c231048)
  {
    Crc32Pass1(t);
    FedBy(t, poly, 0xffffffff, 0x31, 0x00000031, 0xffffffce, 0x000000ce, 0x00ffffff, 0x7c231048);
  }

  lemma Crc32Pass2(t: bv32 -> bv32)
    requires t(0x0000007a) == 0xb0d09822
    ensures Pass(t, 0x7c231048, 0x32, 0x00000032, 0x7c23107a, 0x0000007a, 0x007c2310, 0xb0acbb32)
  {
  }

  lemma Crc32Fed2(t: bv32 -> bv32, poly: bv32)
    requires Generates(t, poly) && t(0x0000007a) == 0xb0d09822
    ensures Fed(poly, 0x7c231048, 0x32, 0xb0acbb32)
  {
    Crc32Pass2(t);
    FedBy(t, poly, 0x7c231048, 0x32, 0x00000032, 0x7c23107a, 0x0000007a, 0x007c2310, 0xb0acbb32);
  }

  lemma Crc32Pass3(t: bv32 -> bv32)
    requires t(0x00000001) == 0x77073096
    ensures Pass(t, 0xb0acbb32, 0x33, 0x00000033, 0xb0acbb01, 0x00000001, 0x00b0acbb, 0x77b79c2d)
  {
  }

  lemma Crc32Fed3(t: bv32 -> bv32, poly: bv32)
    requires Generates(t, poly) && t(0x00000001) == 0x77073096
    ensures Fed(poly, 0xb0acbb32, 0x33, 0x77b79c2d)
  {
    Crc32Pass3(t);
    FedBy(t, poly, 0xb0acbb32, 0x33, 0x00000033, 0xb0acbb01, 0x00000001, 0x00b0acbb, 0x77b79c2d);
  }

  lemma Crc32Pass4(t: bv32 -> bv32)
    requires t(0x00000019) == 0x646ba8c0
    ensures Pass(t, 0x77b79c2d, 0x34, 0x00000034, 0x77b79c19, 0x00000019, 0x0077b79c, 0x641c1f5c)
  {
  }

  lemma Crc32Fed4(t: bv32 -> bv32, poly: bv32)
    requires Generates(t, poly) && t(0x00000019) == 0x646ba8c0
    ensures Fed(poly, 0x77b79c2d, 0x34, 0x641c1f5c)
  {
    Crc32Pass4(t);
    FedBy(t, poly, 0x77b79c2d, 0x34, 0x00000034, 0x77b79c19, 0x00000019, 0x0077b79c, 0x641c1f5c);
  }

  lemma Crc32Pass5(t: bv32 -> bv32)
    requires t(0x00000069) == 0x346ed9fc
    ensures Pass(t, 0x641c1f5c, 0x35, 0x00000035, 0x641c1f69, 0x00000069, 0x00641c1f, 0x340ac5e3)
  {
  }

  lemma Crc32Fed5(t: bv32 -> bv32, poly: bv32)
    requires Generates(t, poly) && t(0x00000069) == 0x346ed9fc
    ensures Fed(poly, 0x641c1f5c, 0x35, 0x340ac5e3)
  {
    Crc32Pass5(t);
    FedBy(t, poly, 0x641c1f5c, 0x35, 0x00000035, 0x641c1f69, 0x00000069, 0x00641c1f, 0x340ac5e3);
  }

  lemma Crc32Pass6(t: bv32 -> bv32)
    requires t(0x000000d5) == 0xf6b9265b
    ensures Pass(t, 0x340ac5e3, 0x36, 0x00000036, 0x340ac5d5, 0x000000d5, 0x00340ac5, 0xf68d2c9e)
  {
  }

  lemma Crc32Fed6(t: bv32 -> bv32, poly: bv32)
    requires Generates(t, poly) && t(0x000000d5) == 0xf6b9265b
    ensures Fed(poly, 0x340ac5e3, 0x36, 0xf68d2c9e)
  {
    Crc32Pass6(t);
    FedBy(t, poly, 0x340ac5e3, 0x36, 0x00000036, 0x340ac5d5, 0x000000d5, 0x00340ac5, 0xf68d2c9e);
  }

  lemma Crc32Pass7(t: bv32 -> bv32)
    requires t(0x000000a9) == 0xaf0a1b4c
    ensures Pass(t, 0xf68d2c9e, 0x37, 0x00000037, 0xf68d2ca9, 0x000000a9, 0x00f68d2c, 0xaffc9660)
  {
  }

  lemma Crc32Fed7(t: bv32 -> bv32, poly: bv32)
    requires Generates(t, poly) && t(0x000000a9) == 0xaf0a1b4c
    ensures Fed(poly, 0xf68d2c9e, 0x37, 0xaffc9660)
  {
    Crc32Pass7(t);
    FedBy(t, poly, 0xf68d2c9e, 0x37, 0x00000037, 0xf68d2ca9, 0x000000a9, 0x00f68d2c, 0xaffc9660);
  }

  lemma Crc32Pass8(t: bv32 -> bv32)
    requires t(0x00000058) == 0x65b0d9c6
    ensures Pass(t, 0xaffc9660, 0x38, 0x00000038, 0xaffc9658, 0x00000058, 0x00affc96, 0x651f2550)
  {
  }

  lemma Crc32Fed8(t: bv32 -> bv32, poly: bv32)
    requires Generates(t, poly) && t(0x00000058) == 0x65b0d9c6
    ensures Fed(poly, 0xaffc9660, 0x38, 0x651f2550)
  {
    Crc32Pass8(t);
    FedBy(t, poly, 0xaffc9660, 0x38, 0x00000038, 0xaffc9658, 0x00000058, 0x00affc96, 0x651f2550);
  }

  lemma Crc32Pass9(t: bv32 -> bv32)
    requires t(0x00000069) == 0x346ed9fc
    ensures Pass(t, 0x651f2550, 0x39, 0x00000039, 0x651f2569, 0x00000069, 0x00651f25, 0x340bc6d9)
  {
  }

  lemma Crc32Fed9(t: bv32 -> bv32, poly: bv32)
    requires Generates(t, poly) && t(0x00000069) == 0x346ed9fc
    ensures Fed(poly, 0x651f2550, 0x39, 0x340bc6d9)
  {
    Crc32Pass9(t);
    FedBy(t, poly, 0x651f2550, 0x39, 0x00000039, 0x651f2569, 0x00000069, 0x00651f25, 0x340bc6d9);
  }

  lemma Crc32Upto1(poly: bv32, buf: Bytes)
    requires poly == CRC32_POLY && |buf| == 9 && buf[..1] == DIGITS[..1]
    ensures Through(poly, buf, 1, 0x7c231048)
  {
    Crc32Digit1(poly);
    Same(buf, 0, 0x31);
    ThroughNone(poly, buf);
    On(poly, buf, 0, 0xffffffff, 0x7c231048);
  }

  lemma Crc32Digit1(poly: bv32)
    requires poly == CRC32_POLY
    ensures Fed(poly, 0xffffffff, 0x31, 0x7c231048)
  {
    TablesRight();
    Crc32Entry0();
    Crc32Fed1(Crc32Lookup(), poly);
  }

  lemma Crc32Upto2(poly: bv32, buf: Bytes)
    requires poly == CRC32_POLY && |buf| == 9 && buf[..2] == DIGITS[..2]
    ensures Through(poly, buf, 2, 0xb0acbb32)
  {
    Crc32Digit2(poly);
    Same(buf, 1, 0x32);
    Crc32Upto1(poly, buf);
    On(poly, buf, 1, 0x7c231048, 0xb0acbb32);
  }

  lemma Crc32Digit2(poly: bv32)
    requires poly == CRC32_POLY
    ensures Fed(poly, 0x7c231048, 0x32, 0xb0acbb32)
  {
    TablesRight();
    Crc32Entry1();
    Crc32Fed2(Crc32Lookup(), poly);
  }

  lemma Crc32Upto3(poly: bv32, buf: Bytes)
    requires poly == CRC32_POLY && |buf| == 9 && buf[..3] == DIGITS[..3]
    ensures Through(poly, buf, 3, 0x77b79c2d)
  {
    Crc32Digit3(poly);
    Same(buf, 2, 0x33);
    Crc32Upto2(poly, buf);
    On(poly, buf, 2, 0xb0acbb32, 0x77b79c2d);
  }

  lemma Crc32Digit3(poly: bv32)
    requires poly == CRC32_POLY
    ensures Fed(poly, 0xb0acbb32, 0x33, 0x77b79c2d)
  {
    TablesRight();
    Crc32Entry2();
    Crc32Fed3(Crc32Lookup(), poly);
  }

  lemma Crc32Upto4(poly: bv32, buf: Bytes)
    requires poly == CRC32_POLY && |buf| == 9 && buf[..4] == DIGITS[..4]
    ensures Through(poly, buf, 4, 0x641c1f5c)
  {
    Crc32Digit4(poly);
    Same(buf, 3, 0x34);
    Crc32Upto3(poly, buf);
    On(poly, buf, 3, 0x77b79c2d, 0x641c1f5c);
  }

  lemma Crc32Digit4(poly: bv32)
    requires poly == CRC32_POLY
    ensures Fed(poly, 0x77b79c2d, 0x34, 0x641c1f5c)
  {
    TablesRight();
    Crc32Entry3();
    Crc32Fed4(Crc32Lookup(), poly);
  }

  lemma Crc32Upto5(poly: bv32, buf: Bytes)
    requires poly == CRC32_POLY && |buf| == 9 && buf[..5] == DIGITS[..5]
    ensures Through(poly, buf, 5, 0x340ac5e3)
  {
    Crc32Digit5(poly);
    Same(buf, 4, 0x35);
    Crc32Upto4(poly, buf);
    On(poly, buf, 4, 0x641c1f5c, 0x340ac5e3);
  }

  lemma Crc32Digit5(poly: bv32)
    requires poly == CRC32_POLY
    ensures Fed(poly, 0x641c1f5c, 0x35, 0x340ac5e3)
  {
    TablesRight();
    Crc32Entry4();
    Crc32Fed5(Crc32Lookup(), poly);
  }

  lemma Crc32Upto6(poly: bv32, buf: Bytes)
    requires poly == CRC32_POLY && |buf| == 9 && buf[..6] == DIGITS[..6]
    ensures Through(poly, buf, 6, 0xf68d2c9e)
  {
    Crc32Digit6(poly);
    Same(buf, 5, 0x36);
    Crc32Upto5(poly, buf);
    On(poly, buf, 5, 0x340ac5e3, 0xf68d2c9e);
  }

  lemma Crc32Digit6(poly: bv32)
    requires poly == CRC32_POLY
    ensures Fed(poly, 0x340ac5e3, 0x36, 0xf68d2c9e)
  {
    TablesRight();
    Crc32Entry5();
    Crc32Fed6(Crc32Lookup(), poly);
  }

  lemma Crc32Upto7(poly: bv32, buf: Bytes)
    requires poly == CRC32_POLY && |buf| == 9 && buf[..7] == DIGITS[..7]
    ensures Through(poly, buf, 7, 0xaffc9660)
  {
    Crc32Digit7(poly);
    Same(buf, 6, 0x37);
    Crc32Upto6(poly, buf);
    On(poly, buf, 6, 0xf68d2c9e, 0xaffc9660);
  }

  lemma Crc32Digit7(poly: bv32)
    requires poly == CRC32_POLY
    ensures Fed(poly, 0xf68d2c9e, 0x37, 0xaffc9660)
  {
    TablesRight();
    Crc32Entry6();
    Crc32Fed7(Crc32Lookup(), poly);
  }

  lemma Crc32Upto8(poly: bv32, buf: Bytes)
    requires poly == CRC32_POLY && |buf| == 9 && buf[..8] == DIGITS[..8]
    ensures Through(poly, buf, 8, 0x651f2550)
  {
    Crc32Digit8(poly);
    Same(buf, 7, 0x38);
    Crc32Upto7(poly, buf);
    On(poly, buf, 7, 0xaffc9660, 0x651f2550);
  }

  lemma Crc32Digit8(poly: bv32)
    requires poly == CRC32_POLY
    ensures Fed(poly, 0xaffc9660, 0x38, 0x651f2550)
  {
    TablesRight();
    Crc32Entry7();
    Crc32Fed8(Crc32Lookup(), poly);
  }

  lemma Crc32Upto9(poly: bv32, buf: Bytes)
    requires poly == CRC32_POLY && |buf| == 9 && buf[..9] == DIGITS[..9]
    ensures Through(poly, buf, 9, 0x340bc6d9)
  {
    Crc32Digit9(poly);
    Same(buf, 8, 0x39);
    Crc32Upto8(poly, buf);
    On(poly, buf, 8, 0x651f2550, 0x340bc6d9);
  }

  lemma Crc32Digit9(poly: bv32)
    requires poly == CRC32_POLY
    ensures Fed(poly, 0x651f2550, 0x39, 0x340bc6d9)
  {
    TablesRight();
    Crc32Entry8();
    Crc32Fed9(Crc32Lookup(), poly);
  }

  /** The check value of CRC-32. */
  lemma Crc32Check(poly: bv32, buf: Bytes)
    requires poly == CRC32_POLY && buf == DIGITS
    ensures Register(0xcbf43926) == Checksum(poly, buf)
  {
    Crc32Upto9(poly, buf);
    ThroughAll(poly, buf, 0x340bc6d9);
  }

  lemma Crc32cEntry0() ensures Crc32cTable(0x000000ce) == 0x6ff599e3 { }

  lemma Crc32cEntry1() ensures Crc32cTable(0x0000002e) == 0x8cc531f9 { }

  lemma Crc32cEntry2() ensures Crc32cTable(0x000000ac) == 0xef087a76 { }

  lemma Crc32cEntry3() ensures Crc32cTable(0x00000079) == 0x092a8fc1 { }

  lemma Crc32cEntry4() ensures Crc32cTable(0x00000024) == 0xe72719c1 { }

  lemma Crc32cEntry5() ensures Crc32cTable(0x000000fc) == 0xbe2da0a5 { }

  lemma Crc32cEntry6() ensures Crc32cTable(0x0000004e) == 0xed03a29b { }

  lemma Crc32cEntry7() ensures Crc32cTable(0x0000002d) == 0x9f95c20d { }

  lemma Crc32cEntry8() ensures Crc32cTable(0x0000005c) == 0x1c661503 { }

  lemma Crc32cPass1(t: bv32 -> bv32)
    requires t(0x000000ce) == 0x6ff599e3
    ensures Pass(t, 0xffffffff, 0x31, 0x00000031, 0xffffffce, 0x000000ce, 0x00ffffff, 0x6f0a661c)
  {
  }

  lemma Crc32cFed1(t: bv32 -> bv32, poly: bv32)
    requires Generates(t, poly) && t(0x000000ce) == 0x6ff599e3
    ensures Fed(poly, 0xffffffff, 0x31, 0x6f0a661c)
  {
    Crc32cPass1(t);
    FedBy(t, poly, 0xffffffff, 0x31, 0x00000031, 0xffffffce, 0x000000ce, 0x00ffffff, 0x6f0a661c);
  }

  lemma Crc32cPass2(t: bv32 -> bv32)
    requires t(0x0000002e) == 0x8cc531f9
    ensures Pass(t, 0x6f0a661c, 0x32, 0x00000032, 0x6f0a662e, 0x0000002e, 0x006f0a66, 0x8caa3b9f)
  {
  }

  lemma Crc32cFed2(t: bv32 -> bv32, poly: bv32)
    requires Generates(t, poly) && t(0x0000002e) == 0x8cc531f9
    ensures Fed(poly, 0x6f0a661c, 0x32, 0x8caa3b9f)
  {
    Crc32cPass2(t);
    FedBy(t, poly, 0x6f0a661c, 0x32, 0x00000032, 0x6f0a662e, 0x0000002e, 0x006f0a66, 0x8caa3b9f);
  }

  lemma Crc32cPass3(t: bv32 -> bv32)
    requires t(0x000000ac) == 0xef087a76
    ensures Pass(t, 0x8caa3b9f, 0x33, 0x00000033, 0x8caa3bac, 0x000000ac, 0x008caa3b, 0xef84d04d)
  {
  }

  lemma Crc32cFed3(t: bv32 -> bv32, poly: bv32)
    requires Generates(t, poly) && t(0x000000ac) == 0xef087a76
    ensures Fed(poly, 0x8caa3b9f, 0x33, 0xef84d04d)
  {
    Crc32cPass3(t);
    FedBy(t, poly, 0x8caa3b9f, 0x33, 0x00000033, 0x8caa3bac, 0x000000ac, 0x008caa3b, 0xef84d04d);
  }

  lemma Crc32cPass4(t: bv32 -> bv32)
    requires t(0x00000079) == 0x092a8fc1
    ensures Pass(t, 0xef84d04d, 0x34, 0x00000034, 0xef84d079, 0x00000079, 0x00ef84d0, 0x09c50b11)
  {
  }

  lemma Crc32cFed4(t: bv32 -> bv32, poly: bv32)
    requires Generates(t, poly) && t(0x00000079) == 0x092a8fc1
    ensures Fed(poly, 0xef84d04d, 0x34, 0x09c50b11)
  {
    Crc32cPass4(t);
    FedBy(t, poly, 0xef84d04d, 0x34, 0x00000034, 0xef84d079, 0x00000079, 0x00ef84d0, 0x09c50b11);
  }

  lemma Crc32cPass5(t: bv32 -> bv32)
    requires t(0x00000024) == 0xe72719c1
    ensures Pass(t, 0x09c50b11, 0x35, 0x00000035, 0x09c50b24, 0x00000024, 0x0009c50b, 0xe72edcca)
  {
  }

  lemma Crc32cFed5(t: bv32 -> bv32, poly: bv32)
    requires Generates(t, poly) && t(0x00000024) == 0xe72719c1
    ensures Fed(poly, 0x09c50b11, 0x35, 0xe72edcca)
  {
    Crc32cPass5(t);
    FedBy(t, poly, 0x09c50b11, 0x35, 0x00000035, 0x09c50b24, 0x00000024, 0x0009c50b, 0xe72edcca);
  }

  lemma Crc32cPass6(t: bv32 -> bv32)
    requires t(0x000000fc) == 0xbe2da0a5
    ensures Pass(t, 0xe72edcca, 0x36, 0x00000036, 0xe72edcfc, 0x000000fc, 0x00e72edc, 0xbeca8e79)
  {
  }

  lemma Crc32cFed6(t: bv32 -> bv32, poly: bv32)
    requires Generates(t, poly) && t(0x000000fc) == 0xbe2da0a5
    ensures Fed(poly, 0xe72edcca, 0x36, 0xbeca8e79)
  {
    Crc32cPass6(t);
    FedBy(t, poly, 0xe72edcca, 0x36, 0x00000036, 0xe72edcfc, 0x000000fc, 0x00e72edc, 0xbeca8e79);
  }

  lemma Crc32cPass7(t: bv32 -> bv32)
    requires t(0x0000004e) == 0xed03a29b
    ensures Pass(t, 0xbeca8e79, 0x37, 0x00000037, 0xbeca8e4e, 0x0000004e, 0x00beca8e, 0xedbd6815)
  {
  }

  lemma Crc32cFed7(t: bv32 -> bv32, poly: bv32)
    requires Generates(t, poly) && t(0x0000004e) == 0xed03a29b
    ensures Fed(poly, 0xbeca8e79, 0x37, 0xedbd6815)
  {
    Crc32cPass7(t);
    FedBy(t, poly, 0xbeca8e79, 0x37, 0x00000037, 0xbeca8e4e, 0x0000004e, 0x00beca8e, 0xedbd6815);
  }

  lemma Crc32cPass8(t: bv32 -> bv32)
    requires t(0x0000002d) == 0x9f95c20d
    ensures Pass(t, 0xedbd6815, 0x38, 0x00000038, 0xedbd682d, 0x0000002d, 0x00edbd68, 0x9f787f65)
  {
  }

  lemma Crc32cFed8(t: bv32 -> bv32, poly: bv32)
    requires Generates(t, poly) && t(0x0000002d) == 0x9f95c20d
    ensures Fed(poly, 0xedbd6815, 0x38, 0x9f787f65)
  {
    Crc32cPass8(t);
    FedBy(t, poly, 0xedbd6815, 0x38, 0x00000038, 0xedbd682d, 0x0000002d, 0x00edbd68, 0x9f787f65);
  }

  lemma Crc32cPass9(t: bv32 -> bv32)
    requires t(0x0000005c) == 0x1c661503
    ensures Pass(t, 0x9f787f65, 0x39, 0x00000039, 0x9f787f5c, 0x0000005c, 0x009f787f, 0x1cf96d7c)
  {
  }

  lemma Crc32cFed9(t: bv32 -> bv32, poly: bv32)
    requires Generates(t, poly) && t(0x0000005c) == 0x1c661503
    ensures Fed(poly, 0x9f787f65, 0x39, 0x1cf96d7c)
  {
    Crc32cPass9(t);
    FedBy(t, poly, 0x9f787f65, 0x39, 0x00000039, 0x9f787f5c, 0x0000005c, 0x009f787f, 0x1cf96d7c);
  }

  lemma Crc32cUpto1(poly: bv32, buf: Bytes)
    requires poly == CRC32C_POLY && |buf| == 9 && buf[..1] == DIGITS[..1]
    ensures Through(poly, buf, 1, 0x6f0a661c)
  {
    Crc32cDigit1(poly);
    Same(buf, 0, 0x31);
    ThroughNone(poly, buf);
    On(poly, buf, 0, 0xffffffff, 0x6f0a661c);
  }

  lemma Crc32cDigit1(poly: bv32)
    requires poly == CRC32C_POLY
    ensures Fed(poly, 0xffffffff, 0x31, 0x6f0a661c)
  {
    TablesRight();
    Crc32cEntry0();
    Crc32cFed1(Crc32cLookup(), poly);
  }

  lemma Crc32cUpto2(poly: bv32, buf: Bytes)
    requires poly == CRC32C_POLY && |buf| == 9 && buf[..2] == DIGITS[..2]
    ensures Through(poly, buf, 2, 0x8caa3b9f)
  {
    Crc32cDigit2(poly);
    Same(buf, 1, 0x32);
    Crc32cUpto1(poly, buf);
    On(poly, buf, 1, 0x6f0a661c, 0x8caa3b9f);
  }

  lemma Crc32cDigit2(poly: bv32)
    requires poly == CRC32C_POLY
    ensures Fed(poly, 0x6f0a661c, 0x32, 0x8caa3b9f)
  {
    TablesRight();
    Crc32cEntry1();
    Crc32cFed2(Crc32cLookup(), poly);
  }

  lemma Crc32cUpto3(poly: bv32, buf: Bytes)
    requires poly == CRC32C_POLY && |buf| == 9 && buf[..3] == DIGITS[..3]
    ensures Through(poly, buf, 3, 0xef84d04d)
  {
    Crc32cDigit3(poly);
    Same(buf, 2, 0x33);
    Crc32cUpto2(poly, buf);
    On(poly, buf, 2, 0x8caa3b9f, 0xef84d04d);
  }

  lemma Crc32cDigit3(poly: bv32)
    requires poly == CRC32C_POLY
    ensures Fed(poly, 0x8caa3b9f, 0x33, 0xef84d04d)
  {
    TablesRight();
    Crc32cEntry2();
    Crc32cFed3(Crc32cLookup(), poly);
  }

  lemma Crc32cUpto4(poly: bv32, buf: Bytes)
    requires poly == CRC32C_POLY && |buf| == 9 && buf[..4] == DIGITS[..4]
    ensures Through(poly, buf, 4, 0x09c50b11)
  {
    Crc32cDigit4(poly);
    Same(buf, 3, 0x34);
    Crc32cUpto3(poly, buf);
    On(poly, buf, 3, 0xef84d04d, 0x09c50b11);
  }

  lemma Crc32cDigit4(poly: bv32)
    requires poly == CRC32C_POLY
    ensures Fed(poly, 0xef84d04d, 0x34, 0x09c50b11)
  {
    TablesRight();
    Crc32cEntry3();
    Crc32cFed4(Crc32cLookup(), poly);
  }

  lemma Crc32cUpto5(poly: bv32, buf: Bytes)
    requires poly == CRC32C_POLY && |buf| == 9 && buf[..5] == DIGITS[..5]
    ensures Through(poly, buf, 5, 0xe72edcca)
  {
    Crc32cDigit5(poly);
    Same(buf, 4, 0x35);
    Crc32cUpto4(poly, buf);
    On(poly, buf, 4, 0x09c50b11, 0xe72edcca);
  }

  lemma Crc32cDigit5(poly: bv32)
    requires poly == CRC32C_POLY
    ensures Fed(poly, 0x09c50b11, 0x35, 0xe72edcca)
  {
    TablesRight();
    Crc32cEntry4();
    Crc32cFed5(Crc32cLookup(), poly);
  }

  lemma Crc32cUpto6(poly: bv32, buf: Bytes)
    requires poly == CRC32C_POLY && |buf| == 9 && buf[..6] == DIGITS[..6]
    ensures Through(poly, buf, 6, 0xbeca8e79)
  {
    Crc32cDigit6(poly);
    Same(buf, 5, 0x36);
    Crc32cUpto5(poly, buf);
    On(poly, buf, 5, 0xe72edcca, 0xbeca8e79);
  }

  lemma Crc32cDigit6(poly: bv32)
    requires poly == CRC32C_POLY
    ensures Fed(poly, 0xe72edcca, 0x36, 0xbeca8e79)
  {
    TablesRight();
    Crc32cEntry5();
    Crc32cFed6(Crc32cLookup(), poly);
  }

  lemma Crc32cUpto7(poly: bv32, buf: Bytes)
    requires poly == CRC32C_POLY && |buf| == 9 && buf[..7] == DIGITS[..7]
    ensures Through(poly, buf, 7, 0xedbd6815)
  {
    Crc32cDigit7(poly);
    Same(buf, 6, 0x37);
    Crc32cUpto6(poly, buf);
    On(poly, buf, 6, 0xbeca8e79, 0xedbd6815);
  }

  lemma Crc32cDigit7(poly: bv32)
    requires poly == CRC32C_POLY
    ensures Fed(poly, 0xbeca8e79, 0x37, 0xedbd6815)
  {
    TablesRight();
    Crc32cEntry6();
    Crc32cFed7(Crc32cLookup(), poly);
  }

  lemma Crc32cUpto8(poly: bv32, buf: Bytes)
    requires poly == CRC32C_POLY && |buf| == 9 && buf[..8] == DIGITS[..8]
    ensures Through(poly, buf, 8, 0x9f787f65)
  {
    Crc32cDigit8(poly);
    Same(buf, 7, 0x38);
    Crc32cUpto7(poly, buf);
    On(poly, buf, 7, 0xedbd6815, 0x9f787f65);
  }

  lemma Crc32cDigit8(poly: bv32)
    requires poly == CRC32C_POLY
    ensures Fed(poly, 0xedbd6815, 0x38, 0x9f787f65)
  {
    TablesRight();
    Crc32cEntry7();
    Crc32cFed8(Crc32cLookup(), poly);
  }

  lemma Crc32cUpto9(poly: bv32, buf: Bytes)
    requires poly == CRC32C_POLY && |buf| == 9 && buf[..9] == DIGITS[..9]
    ensures Through(poly, buf, 9, 0x1cf96d7c)
  {
    Crc32cDigit9(poly);
    Same(buf, 8, 0x39);
    Crc32cUpto8(poly, buf);
    On(poly, buf, 8, 0x9f787f65, 0x1cf96d7c);
  }

  lemma Crc32cDigit9(poly: bv32)
    requires poly == CRC32C_POLY
    ensures Fed(poly, 0x9f787f65, 0x39, 0x1cf96d7c)
  {
    TablesRight();
    Crc32cEntry8();
    Crc32cFed9(Crc32cLookup(), poly);
  }

  /** The check value of CRC-32C. */
  lemma Crc32cCheck(poly: bv32, buf: Bytes)
    requires poly == CRC32C_POLY && buf == DIGITS
    ensures Register(0xe3069283) == Checksum(poly, buf)
  {
    Crc32cUpto9(poly, buf);
    ThroughAll(poly, buf, 0x1cf96d7c);
  }
}
