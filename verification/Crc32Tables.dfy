/** The two constant tables of the CRCs, 16 entries at a time, and what each entry is: eight bit-steps of its index. */
module Crc32Tables {
  import opened Crc32Words

  function Stepper(poly: bv32): bv32 -> bv32 {
    c => StepByte(c, poly)
  }

  function Crc32Table(i: bv32): bv32
    requires i <= 0xFF
  {
    if i <= 0x0F then Crc32Part0(i) else
    if i <= 0x1F then Crc32Part1(i) else
    if i <= 0x2F then Crc32Part2(i) else
    if i <= 0x3F then Crc32Part3(i) else
    if i <= 0x4F then Crc32Part4(i) else
    if i <= 0x5F then Crc32Part5(i) else
    if i <= 0x6F then Crc32Part6(i) else
    if i <= 0x7F then Crc32Part7(i) else
    if i <= 0x8F then Crc32Part8(i) else
    if i <= 0x9F then Crc32Part9(i) else
    if i <= 0xAF then Crc32Part10(i) else
    if i <= 0xBF then Crc32Part11(i) else
    if i <= 0xCF then Crc32Part12(i) else
    if i <= 0xDF then Crc32Part13(i) else
    if i <= 0xEF then Crc32Part14(i) else
    Crc32Part15(i)
  }

  predicate Crc32Values(f: bv32 -> bv32) {
    && Crc32Values0(f) && Crc32Values1(f) && Crc32Values2(f) && Crc32Values3(f)
    && Crc32Values4(f) && Crc32Values5(f) && Crc32Values6(f) && Crc32Values7(f)
    && Crc32Values8(f) && Crc32Values9(f) && Crc32Values10(f) && Crc32Values11(f)
    && Crc32Values12(f) && Crc32Values13(f) && Crc32Values14(f) && Crc32Values15(f)
  }

  lemma Crc32Select(f: bv32 -> bv32, i: bv32)
    requires i <= 0xFF && Crc32Values(f)
    ensures Crc32Table(i) == f(i)
  {
    if i <= 0x0F {
      Crc32Select0(f, i);
    } else if i <= 0x1F {
      Crc32Select1(f, i);
    } else if i <= 0x2F {
      Crc32Select2(f, i);
    } else if i <= 0x3F {
      Crc32Select3(f, i);
    } else if i <= 0x4F {
      Crc32Select4(f, i);
    } else if i <= 0x5F {
      Crc32Select5(f, i);
    } else if i <= 0x6F {
      Crc32Select6(f, i);
    } else if i <= 0x7F {
      Crc32Select7(f, i);
    } else if i <= 0x8F {
      Crc32Select8(f, i);
    } else if i <= 0x9F {
      Crc32Select9(f, i);
    } else if i <= 0xAF {
      Crc32Select10(f, i);
    } else if i <= 0xBF {
      Crc32Select11(f, i);
    } else if i <= 0xCF {
      Crc32Select12(f, i);
    } else if i <= 0xDF {
      Crc32Select13(f, i);
    } else if i <= 0xEF {
      Crc32Select14(f, i);
    } else {
      Crc32Select15(f, i);
    }
  }

  lemma Crc32Steps()
    ensures Crc32Values(Stepper(CRC32_POLY))
  {
    Crc32Steps0();
    Crc32Steps1();
    Crc32Steps2();
    Crc32Steps3();
    Crc32Steps4();
    Crc32Steps5();
    Crc32Steps6();
    Crc32Steps7();
    Crc32Steps8();
    Crc32Steps9();
    Crc32Steps10();
    Crc32Steps11();
    Crc32Steps12();
    Crc32Steps13();
    Crc32Steps14();
    Crc32Steps15();
  }

  function Crc32Part0(i: bv32): bv32
    requires 0x00 <= i <= 0x0F
  {
    if i == 0x00 then 0x00000000 else if i == 0x01 then 0x77073096 else if i == 0x02 then 0xEE0E612C else if i == 0x03 then 0x990951BA else
    if i == 0x04 then 0x076DC419 else if i == 0x05 then 0x706AF48F else if i == 0x06 then 0xE963A535 else if i == 0x07 then 0x9E6495A3 else
    if i == 0x08 then 0x0EDB8832 else if i == 0x09 then 0x79DCB8A4 else if i == 0x0A then 0xE0D5E91E else if i == 0x0B then 0x97D2D988 else
    if i == 0x0C then 0x09B64C2B else if i == 0x0D then 0x7EB17CBD else if i == 0x0E then 0xE7B82D07 else 0x90BF1D91
  }

  predicate Crc32Values0(f: bv32 -> bv32) {
    && f(0x00) == 0x00000000 && f(0x01) == 0x77073096 && f(0x02) == 0xEE0E612C && f(0x03) == 0x990951BA
    && f(0x04) == 0x076DC419 && f(0x05) == 0x706AF48F && f(0x06) == 0xE963A535 && f(0x07) == 0x9E6495A3
    && f(0x08) == 0x0EDB8832 && f(0x09) == 0x79DCB8A4 && f(0x0A) == 0xE0D5E91E && f(0x0B) == 0x97D2D988
    && f(0x0C) == 0x09B64C2B && f(0x0D) == 0x7EB17CBD && f(0x0E) == 0xE7B82D07 && f(0x0F) == 0x90BF1D91
  }

  lemma Crc32Steps0()
    ensures Crc32Values0(Stepper(CRC32_POLY))
  {
  }

  lemma Crc32Select0(f: bv32 -> bv32, i: bv32)
    requires 0x00 <= i <= 0x0F && Crc32Values0(f)
    ensures Crc32Part0(i) == f(i)
  {
  }

  function Crc32Part1(i: bv32): bv32
    requires 0x10 <= i <= 0x1F
  {
    if i == 0x10 then 0x1DB71064 else if i == 0x11 then 0x6AB020F2 else if i == 0x12 then 0xF3B97148 else if i == 0x13 then 0x84BE41DE else
    if i == 0x14 then 0x1ADAD47D else if i == 0x15 then 0x6DDDE4EB else if i == 0x16 then 0xF4D4B551 else if i == 0x17 then 0x83D385C7 else
    if i == 0x18 then 0x136C9856 else if i == 0x19 then 0x646BA8C0 else if i == 0x1A then 0xFD62F97A else if i == 0x1B then 0x8A65C9EC else
    if i == 0x1C then 0x14015C4F else if i == 0x1D then 0x63066CD9 else if i == 0x1E then 0xFA0F3D63 else 0x8D080DF5
  }

  predicate Crc32Values1(f: bv32 -> bv32) {
    && f(0x10) == 0x1DB71064 && f(0x11) == 0x6AB020F2 && f(0x12) == 0xF3B97148 && f(0x13) == 0x84BE41DE
    && f(0x14) == 0x1ADAD47D && f(0x15) == 0x6DDDE4EB && f(0x16) == 0xF4D4B551 && f(0x17) == 0x83D385C7
    && f(0x18) == 0x136C9856 && f(0x19) == 0x646BA8C0 && f(0x1A) == 0xFD62F97A && f(0x1B) == 0x8A65C9EC
    && f(0x1C) == 0x14015C4F && f(0x1D) == 0x63066CD9 && f(0x1E) == 0xFA0F3D63 && f(0x1F) == 0x8D080DF5
  }

  lemma Crc32Steps1()
    ensures Crc32Values1(Stepper(CRC32_POLY))
  {
  }

  lemma Crc32Select1(f: bv32 -> bv32, i: bv32)
    requires 0x10 <= i <= 0x1F && Crc32Values1(f)
    ensures Crc32Part1(i) == f(i)
  {
  }

  function Crc32Part2(i: bv32): bv32
    requires 0x20 <= i <= 0x2F
  {
    if i == 0x20 then 0x3B6E20C8 else if i == 0x21 then 0x4C69105E else if i == 0x22 then 0xD56041E4 else if i == 0x23 then 0xA2677172 else
    if i == 0x24 then 0x3C03E4D1 else if i == 0x25 then 0x4B04D447 else if i == 0x26 then 0xD20D85FD else if i == 0x27 then 0xA50AB56B else
    if i == 0x28 then 0x35B5A8FA else if i == 0x29 then 0x42B2986C else if i == 0x2A then 0xDBBBC9D6 else if i == 0x2B then 0xACBCF940 else
    if i == 0x2C then 0x32D86CE3 else if i == 0x2D then 0x45DF5C75 else if i == 0x2E then 0xDCD60DCF else 0xABD13D59
  }

  predicate Crc32Values2(f: bv32 -> bv32) {
    && f(0x20) == 0x3B6E20C8 && f(0x21) == 0x4C69105E && f(0x22) == 0xD56041E4 && f(0x23) == 0xA2677172
    && f(0x24) == 0x3C03E4D1 && f(0x25) == 0x4B04D447 && f(0x26) == 0xD20D85FD && f(0x27) == 0xA50AB56B
    && f(0x28) == 0x35B5A8FA && f(0x29) == 0x42B2986C && f(0x2A) == 0xDBBBC9D6 && f(0x2B) == 0xACBCF940
    && f(0x2C) == 0x32D86CE3 && f(0x2D) == 0x45DF5C75 && f(0x2E) == 0xDCD60DCF && f(0x2F) == 0xABD13D59
  }

  lemma Crc32Steps2()
    ensures Crc32Values2(Stepper(CRC32_POLY))
  {
  }

  lemma Crc32Select2(f: bv32 -> bv32, i: bv32)
    requires 0x20 <= i <= 0x2F && Crc32Values2(f)
    ensures Crc32Part2(i) == f(i)
  {
  }

  function Crc32Part3(i: bv32): bv32
    requires 0x30 <= i <= 0x3F
  {
    if i == 0x30 then 0x26D930AC else if i == 0x31 then 0x51DE003A else if i == 0x32 then 0xC8D75180 else if i == 0x33 then 0xBFD06116 else
    if i == 0x34 then 0x21B4F4B5 else if i == 0x35 then 0x56B3C423 else if i == 0x36 then 0xCFBA9599 else if i == 0x37 then 0xB8BDA50F else
    if i == 0x38 then 0x2802B89E else if i == 0x39 then 0x5F058808 else if i == 0x3A then 0xC60CD9B2 else if i == 0x3B then 0xB10BE924 else
    if i == 0x3C then 0x2F6F7C87 else if i == 0x3D then 0x58684C11 else if i == 0x3E then 0xC1611DAB else 0xB6662D3D
  }

  predicate Crc32Values3(f: bv32 -> bv32) {
    && f(0x30) == 0x26D930AC && f(0x31) == 0x51DE003A && f(0x32) == 0xC8D75180 && f(0x33) == 0xBFD06116
    && f(0x34) == 0x21B4F4B5 && f(0x35) == 0x56B3C423 && f(0x36) == 0xCFBA9599 && f(0x37) == 0xB8BDA50F
    && f(0x38) == 0x2802B89E && f(0x39) == 0x5F058808 && f(0x3A) == 0xC60CD9B2 && f(0x3B) == 0xB10BE924
    && f(0x3C) == 0x2F6F7C87 && f(0x3D) == 0x58684C11 && f(0x3E) == 0xC1611DAB && f(0x3F) == 0xB6662D3D
  }

  lemma Crc32Steps3()
    ensures Crc32Values3(Stepper(CRC32_POLY))
  {
  }

  lemma Crc32Select3(f: bv32 -> bv32, i: bv32)
    requires 0x30 <= i <= 0x3F && Crc32Values3(f)
    ensures Crc32Part3(i) == f(i)
  {
  }

  function Crc32Part4(i: bv32): bv32
    requires 0x40 <= i <= 0x4F
  {
    if i == 0x40 then 0x76DC4190 else if i == 0x41 then 0x01DB7106 else if i == 0x42 then 0x98D220BC else if i == 0x43 then 0xEFD5102A else
    if i == 0x44 then 0x71B18589 else if i == 0x45 then 0x06B6B51F else if i == 0x46 then 0x9FBFE4A5 else if i == 0x47 then 0xE8B8D433 else
    if i == 0x48 then 0x7807C9A2 else if i == 0x49 then 0x0F00F934 else if i == 0x4A then 0x9609A88E else if i == 0x4B then 0xE10E9818 else
    if i == 0x4C then 0x7F6A0DBB else if i == 0x4D then 0x086D3D2D else if i == 0x4E then 0x91646C97 else 0xE6635C01
  }

  predicate Crc32Values4(f: bv32 -> bv32) {
    && f(0x40) == 0x76DC4190 && f(0x41) == 0x01DB7106 && f(0x42) == 0x98D220BC && f(0x43) == 0xEFD5102A
    && f(0x44) == 0x71B18589 && f(0x45) == 0x06B6B51F && f(0x46) == 0x9FBFE4A5 && f(0x47) == 0xE8B8D433
    && f(0x48) == 0x7807C9A2 && f(0x49) == 0x0F00F934 && f(0x4A) == 0x9609A88E && f(0x4B) == 0xE10E9818
    && f(0x4C) == 0x7F6A0DBB && f(0x4D) == 0x086D3D2D && f(0x4E) == 0x91646C97 && f(0x4F) == 0xE6635C01
  }

  lemma Crc32Steps4()
    ensures Crc32Values4(Stepper(CRC32_POLY))
  {
  }

  lemma Crc32Select4(f: bv32 -> bv32, i: bv32)
    requires 0x40 <= i <= 0x4F && Crc32Values4(f)
    ensures Crc32Part4(i) == f(i)
  {
  }

  function Crc32Part5(i: bv32): bv32
    requires 0x50 <= i <= 0x5F
  {
    if i == 0x50 then 0x6B6B51F4 else if i == 0x51 then 0x1C6C6162 else if i == 0x52 then 0x856530D8 else if i == 0x53 then 0xF262004E else
    if i == 0x54 then 0x6C0695ED else if i == 0x55 then 0x1B01A57B else if i == 0x56 then 0x8208F4C1 else if i == 0x57 then 0xF50FC457 else
    if i == 0x58 then 0x65B0D9C6 else if i == 0x59 then 0x12B7E950 else if i == 0x5A then 0x8BBEB8EA else if i == 0x5B then 0xFCB9887C else
    if i == 0x5C then 0x62DD1DDF else if i == 0x5D then 0x15DA2D49 else if i == 0x5E then 0x8CD37CF3 else 0xFBD44C65
  }

  predicate Crc32Values5(f: bv32 -> bv32) {
    && f(0x50) == 0x6B6B51F4 && f(0x51) == 0x1C6C6162 && f(0x52) == 0x856530D8 && f(0x53) == 0xF262004E
    && f(0x54) == 0x6C0695ED && f(0x55) == 0x1B01A57B && f(0x56) == 0x8208F4C1 && f(0x57) == 0xF50FC457
    && f(0x58) == 0x65B0D9C6 && f(0x59) == 0x12B7E950 && f(0x5A) == 0x8BBEB8EA && f(0x5B) == 0xFCB9887C
    && f(0x5C) == 0x62DD1DDF && f(0x5D) == 0x15DA2D49 && f(0x5E) == 0x8CD37CF3 && f(0x5F) == 0xFBD44C65
  }

  lemma Crc32Steps5()
    ensures Crc32Values5(Stepper(CRC32_POLY))
  {
  }

  lemma Crc32Select5(f: bv32 -> bv32, i: bv32)
    requires 0x50 <= i <= 0x5F && Crc32Values5(f)
    ensures Crc32Part5(i) == f(i)
  {
  }

  function Crc32Part6(i: bv32): bv32
    requires 0x60 <= i <= 0x6F
  {
    if i == 0x60 then 0x4DB26158 else if i == 0x61 then 0x3AB551CE else if i == 0x62 then 0xA3BC0074 else if i == 0x63 then 0xD4BB30E2 else
    if i == 0x64 then 0x4ADFA541 else if i == 0x65 then 0x3DD895D7 else if i == 0x66 then 0xA4D1C46D else if i == 0x67 then 0xD3D6F4FB else
    if i == 0x68 then 0x4369E96A else if i == 0x69 then 0x346ED9FC else if i == 0x6A then 0xAD678846 else if i == 0x6B then 0xDA60B8D0 else
    if i == 0x6C then 0x44042D73 else if i == 0x6D then 0x33031DE5 else if i == 0x6E then 0xAA0A4C5F else 0xDD0D7CC9
  }

  predicate Crc32Values6(f: bv32 -> bv32) {
    && f(0x60) == 0x4DB26158 && f(0x61) == 0x3AB551CE && f(0x62) == 0xA3BC0074 && f(0x63) == 0xD4BB30E2
    && f(0x64) == 0x4ADFA541 && f(0x65) == 0x3DD895D7 && f(0x66) == 0xA4D1C46D && f(0x67) == 0xD3D6F4FB
    && f(0x68) == 0x4369E96A && f(0x69) == 0x346ED9FC && f(0x6A) == 0xAD678846 && f(0x6B) == 0xDA60B8D0
    && f(0x6C) == 0x44042D73 && f(0x6D) == 0x33031DE5 && f(0x6E) == 0xAA0A4C5F && f(0x6F) == 0xDD0D7CC9
  }

  lemma Crc32Steps6()
    ensures Crc32Values6(Stepper(CRC32_POLY))
  {
  }

  lemma Crc32Select6(f: bv32 -> bv32, i: bv32)
    requires 0x60 <= i <= 0x6F && Crc32Values6(f)
    ensures Crc32Part6(i) == f(i)
  {
  }

  function Crc32Part7(i: bv32): bv32
    requires 0x70 <= i <= 0x7F
  {
    if i == 0x70 then 0x5005713C else if i == 0x71 then 0x270241AA else if i == 0x72 then 0xBE0B1010 else if i == 0x73 then 0xC90C2086 else
    if i == 0x74 then 0x5768B525 else if i == 0x75 then 0x206F85B3 else if i == 0x76 then 0xB966D409 else if i == 0x77 then 0xCE61E49F else
    if i == 0x78 then 0x5EDEF90E else if i == 0x79 then 0x29D9C998 else if i == 0x7A then 0xB0D09822 else if i == 0x7B then 0xC7D7A8B4 else
    if i == 0x7C then 0x59B33D17 else if i == 0x7D then 0x2EB40D81 else if i == 0x7E then 0xB7BD5C3B else 0xC0BA6CAD
  }

  predicate Crc32Values7(f: bv32 -> bv32) {
    && f(0x70) == 0x5005713C && f(0x71) == 0x270241AA && f(0x72) == 0xBE0B1010 && f(0x73) == 0xC90C2086
    && f(0x74) == 0x5768B525 && f(0x75) == 0x206F85B3 && f(0x76) == 0xB966D409 && f(0x77) == 0xCE61E49F
    && f(0x78) == 0x5EDEF90E && f(0x79) == 0x29D9C998 && f(0x7A) == 0xB0D09822 && f(0x7B) == 0xC7D7A8B4
    && f(0x7C) == 0x59B33D17 && f(0x7D) == 0x2EB40D81 && f(0x7E) == 0xB7BD5C3B && f(0x7F) == 0xC0BA6CAD
  }

  lemma Crc32Steps7()
    ensures Crc32Values7(Stepper(CRC32_POLY))
  {
  }

  lemma Crc32Select7(f: bv32 -> bv32, i: bv32)
    requires 0x70 <= i <= 0x7F && Crc32Values7(f)
    ensures Crc32Part7(i) == f(i)
  {
  }

  function Crc32Part8(i: bv32): bv32
    requires 0x80 <= i <= 0x8F
  {
    if i == 0x80 then 0xEDB88320 else if i == 0x81 then 0x9ABFB3B6 else if i == 0x82 then 0x03B6E20C else if i == 0x83 then 0x74B1D29A else
    if i == 0x84 then 0xEAD54739 else if i == 0x85 then 0x9DD277AF else if i == 0x86 then 0x04DB2615 else if i == 0x87 then 0x73DC1683 else
    if i == 0x88 then 0xE3630B12 else if i == 0x89 then 0x94643B84 else if i == 0x8A then 0x0D6D6A3E else if i == 0x8B then 0x7A6A5AA8 else
    if i == 0x8C then 0xE40ECF0B else if i == 0x8D then 0x9309FF9D else if i == 0x8E then 0x0A00AE27 else 0x7D079EB1
  }

  predicate Crc32Values8(f: bv32 -> bv32) {
    && f(0x80) == 0xEDB88320 && f(0x81) == 0x9ABFB3B6 && f(0x82) == 0x03B6E20C && f(0x83) == 0x74B1D29A
    && f(0x84) == 0xEAD54739 && f(0x85) == 0x9DD277AF && f(0x86) == 0x04DB2615 && f(0x87) == 0x73DC1683
    && f(0x88) == 0xE3630B12 && f(0x89) == 0x94643B84 && f(0x8A) == 0x0D6D6A3E && f(0x8B) == 0x7A6A5AA8
    && f(0x8C) == 0xE40ECF0B && f(0x8D) == 0x9309FF9D && f(0x8E) == 0x0A00AE27 && f(0x8F) == 0x7D079EB1
  }

  lemma Crc32Steps8()
    ensures Crc32Values8(Stepper(CRC32_POLY))
  {
  }

  lemma Crc32Select8(f: bv32 -> bv32, i: bv32)
    requires 0x80 <= i <= 0x8F && Crc32Values8(f)
    ensures Crc32Part8(i) == f(i)
  {
  }

  function Crc32Part9(i: bv32): bv32
    requires 0x90 <= i <= 0x9F
  {
    if i == 0x90 then 0xF00F9344 else if i == 0x91 then 0x8708A3D2 else if i == 0x92 then 0x1E01F268 else if i == 0x93 then 0x6906C2FE else
    if i == 0x94 then 0xF762575D else if i == 0x95 then 0x806567CB else if i == 0x96 then 0x196C3671 else if i == 0x97 then 0x6E6B06E7 else
    if i == 0x98 then 0xFED41B76 else if i == 0x99 then 0x89D32BE0 else if i == 0x9A then 0x10DA7A5A else if i == 0x9B then 0x67DD4ACC else
    if i == 0x9C then 0xF9B9DF6F else if i == 0x9D then 0x8EBEEFF9 else if i == 0x9E then 0x17B7BE43 else 0x60B08ED5
  }

  predicate Crc32Values9(f: bv32 -> bv32) {
    && f(0x90) == 0xF00F9344 && f(0x91) == 0x8708A3D2 && f(0x92) == 0x1E01F268 && f(0x93) == 0x6906C2FE
    && f(0x94) == 0xF762575D && f(0x95) == 0x806567CB && f(0x96) == 0x196C3671 && f(0x97) == 0x6E6B06E7
    && f(0x98) == 0xFED41B76 && f(0x99) == 0x89D32BE0 && f(0x9A) == 0x10DA7A5A && f(0x9B) == 0x67DD4ACC
    && f(0x9C) == 0xF9B9DF6F && f(0x9D) == 0x8EBEEFF9 && f(0x9E) == 0x17B7BE43 && f(0x9F) == 0x60B08ED5
  }

  lemma Crc32Steps9()
    ensures Crc32Values9(Stepper(CRC32_POLY))
  {
  }

  lemma Crc32Select9(f: bv32 -> bv32, i: bv32)
    requires 0x90 <= i <= 0x9F && Crc32Values9(f)
    ensures Crc32Part9(i) == f(i)
  {
  }

  function Crc32Part10(i: bv32): bv32
    requires 0xA0 <= i <= 0xAF
  {
    if i == 0xA0 then 0xD6D6A3E8 else if i == 0xA1 then 0xA1D1937E else if i == 0xA2 then 0x38D8C2C4 else if i == 0xA3 then 0x4FDFF252 else
    if i == 0xA4 then 0xD1BB67F1 else if i == 0xA5 then 0xA6BC5767 else if i == 0xA6 then 0x3FB506DD else if i == 0xA7 then 0x48B2364B else
    if i == 0xA8 then 0xD80D2BDA else if i == 0xA9 then 0xAF0A1B4C else if i == 0xAA then 0x36034AF6 else if i == 0xAB then 0x41047A60 else
    if i == 0xAC then 0xDF60EFC3 else if i == 0xAD then 0xA867DF55 else if i == 0xAE then 0x316E8EEF else 0x4669BE79
  }

  predicate Crc32Values10(f: bv32 -> bv32) {
    && f(0xA0) == 0xD6D6A3E8 && f(0xA1) == 0xA1D1937E && f(0xA2) == 0x38D8C2C4 && f(0xA3) == 0x4FDFF252
    && f(0xA4) == 0xD1BB67F1 && f(0xA5) == 0xA6BC5767 && f(0xA6) == 0x3FB506DD && f(0xA7) == 0x48B2364B
    && f(0xA8) == 0xD80D2BDA && f(0xA9) == 0xAF0A1B4C && f(0xAA) == 0x36034AF6 && f(0xAB) == 0x41047A60
    && f(0xAC) == 0xDF60EFC3 && f(0xAD) == 0xA867DF55 && f(0xAE) == 0x316E8EEF && f(0xAF) == 0x4669BE79
  }

  lemma Crc32Steps10()
    ensures Crc32Values10(Stepper(CRC32_POLY))
  {
  }

  lemma Crc32Select10(f: bv32 -> bv32, i: bv32)
    requires 0xA0 <= i <= 0xAF && Crc32Values10(f)
    ensures Crc32Part10(i) == f(i)
  {
  }

  function Crc32Part11(i: bv32): bv32
    requires 0xB0 <= i <= 0xBF
  {
    if i == 0xB0 then 0xCB61B38C else if i == 0xB1 then 0xBC66831A else if i == 0xB2 then 0x256FD2A0 else if i == 0xB3 then 0x5268E236 else
    if i == 0xB4 then 0xCC0C7795 else if i == 0xB5 then 0xBB0B4703 else if i == 0xB6 then 0x220216B9 else if i == 0xB7 then 0x5505262F else
    if i == 0xB8 then 0xC5BA3BBE else if i == 0xB9 then 0xB2BD0B28 else if i == 0xBA then 0x2BB45A92 else if i == 0xBB then 0x5CB36A04 else
    if i == 0xBC then 0xC2D7FFA7 else if i == 0xBD then 0xB5D0CF31 else if i == 0xBE then 0x2CD99E8B else 0x5BDEAE1D
  }

  predicate Crc32Values11(f: bv32 -> bv32) {
    && f(0xB0) == 0xCB61B38C && f(0xB1) == 0xBC66831A && f(0xB2) == 0x256FD2A0 && f(0xB3) == 0x5268E236
    && f(0xB4) == 0xCC0C7795 && f(0xB5) == 0xBB0B4703 && f(0xB6) == 0x220216B9 && f(0xB7) == 0x5505262F
    && f(0xB8) == 0xC5BA3BBE && f(0xB9) == 0xB2BD0B28 && f(0xBA) == 0x2BB45A92 && f(0xBB) == 0x5CB36A04
    && f(0xBC) == 0xC2D7FFA7 && f(0xBD) == 0xB5D0CF31 && f(0xBE) == 0x2CD99E8B && f(0xBF) == 0x5BDEAE1D
  }

  lemma Crc32Steps11()
    ensures Crc32Values11(Stepper(CRC32_POLY))
  {
  }

  lemma Crc32Select11(f: bv32 -> bv32, i: bv32)
    requires 0xB0 <= i <= 0xBF && Crc32Values11(f)
    ensures Crc32Part11(i) == f(i)
  {
  }

  function Crc32Part12(i: bv32): bv32
    requires 0xC0 <= i <= 0xCF
  {
    if i == 0xC0 then 0x9B64C2B0 else if i == 0xC1 then 0xEC63F226 else if i == 0xC2 then 0x756AA39C else if i == 0xC3 then 0x026D930A else
    if i == 0xC4 then 0x9C0906A9 else if i == 0xC5 then 0xEB0E363F else if i == 0xC6 then 0x72076785 else if i == 0xC7 then 0x05005713 else
    if i == 0xC8 then 0x95BF4A82 else if i == 0xC9 then 0xE2B87A14 else if i == 0xCA then 0x7BB12BAE else if i == 0xCB then 0x0CB61B38 else
    if i == 0xCC then 0x92D28E9B else if i == 0xCD then 0xE5D5BE0D else if i == 0xCE then 0x7CDCEFB7 else 0x0BDBDF21
  }

  predicate Crc32Values12(f: bv32 -> bv32) {
    && f(0xC0) == 0x9B64C2B0 && f(0xC1) == 0xEC63F226 && f(0xC2) == 0x756AA39C && f(0xC3) == 0x026D930A
    && f(0xC4) == 0x9C0906A9 && f(0xC5) == 0xEB0E363F && f(0xC6) == 0x72076785 && f(0xC7) == 0x05005713
    && f(0xC8) == 0x95BF4A82 && f(0xC9) == 0xE2B87A14 && f(0xCA) == 0x7BB12BAE && f(0xCB) == 0x0CB61B38
    && f(0xCC) == 0x92D28E9B && f(0xCD) == 0xE5D5BE0D && f(0xCE) == 0x7CDCEFB7 && f(0xCF) == 0x0BDBDF21
  }

  lemma Crc32Steps12()
    ensures Crc32Values12(Stepper(CRC32_POLY))
  {
  }

  lemma Crc32Select12(f: bv32 -> bv32, i: bv32)
    requires 0xC0 <= i <= 0xCF && Crc32Values12(f)
    ensures Crc32Part12(i) == f(i)
  {
  }

  function Crc32Part13(i: bv32): bv32
    requires 0xD0 <= i <= 0xDF
  {
    if i == 0xD0 then 0x86D3D2D4 else if i == 0xD1 then 0xF1D4E242 else if i == 0xD2 then 0x68DDB3F8 else if i == 0xD3 then 0x1FDA836E else
    if i == 0xD4 then 0x81BE16CD else if i == 0xD5 then 0xF6B9265B else if i == 0xD6 then 0x6FB077E1 else if i == 0xD7 then 0x18B74777 else
    if i == 0xD8 then 0x88085AE6 else if i == 0xD9 then 0xFF0F6A70 else if i == 0xDA then 0x66063BCA else if i == 0xDB then 0x11010B5C else
    if i == 0xDC then 0x8F659EFF else if i == 0xDD then 0xF862AE69 else if i == 0xDE then 0x616BFFD3 else 0x166CCF45
  }

  predicate Crc32Values13(f: bv32 -> bv32) {
    && f(0xD0) == 0x86D3D2D4 && f(0xD1) == 0xF1D4E242 && f(0xD2) == 0x68DDB3F8 && f(0xD3) == 0x1FDA836E
    && f(0xD4) == 0x81BE16CD && f(0xD5) == 0xF6B9265B && f(0xD6) == 0x6FB077E1 && f(0xD7) == 0x18B74777
    && f(0xD8) == 0x88085AE6 && f(0xD9) == 0xFF0F6A70 && f(0xDA) == 0x66063BCA && f(0xDB) == 0x11010B5C
    && f(0xDC) == 0x8F659EFF && f(0xDD) == 0xF862AE69 && f(0xDE) == 0x616BFFD3 && f(0xDF) == 0x166CCF45
  }

  lemma Crc32Steps13()
    ensures Crc32Values13(Stepper(CRC32_POLY))
  {
  }

  lemma Crc32Select13(f: bv32 -> bv32, i: bv32)
    requires 0xD0 <= i <= 0xDF && Crc32Values13(f)
    ensures Crc32Part13(i) == f(i)
  {
  }

  function Crc32Part14(i: bv32): bv32
    requires 0xE0 <= i <= 0xEF
  {
    if i == 0xE0 then 0xA00AE278 else if i == 0xE1 then 0xD70DD2EE else if i == 0xE2 then 0x4E048354 else if i == 0xE3 then 0x3903B3C2 else
    if i == 0xE4 then 0xA7672661 else if i == 0xE5 then 0xD06016F7 else if i == 0xE6 then 0x4969474D else if i == 0xE7 then 0x3E6E77DB else
    if i == 0xE8 then 0xAED16A4A else if i == 0xE9 then 0xD9D65ADC else if i == 0xEA then 0x40DF0B66 else if i == 0xEB then 0x37D83BF0 else
    if i == 0xEC then 0xA9BCAE53 else if i == 0xED then 0xDEBB9EC5 else if i == 0xEE then 0x47B2CF7F else 0x30B5FFE9
  }

  predicate Crc32Values14(f: bv32 -> bv32) {
    && f(0xE0) == 0xA00AE278 && f(0xE1) == 0xD70DD2EE && f(0xE2) == 0x4E048354 && f(0xE3) == 0x3903B3C2
    && f(0xE4) == 0xA7672661 && f(0xE5) == 0xD06016F7 && f(0xE6) == 0x4969474D && f(0xE7) == 0x3E6E77DB
    && f(0xE8) == 0xAED16A4A && f(0xE9) == 0xD9D65ADC && f(0xEA) == 0x40DF0B66 && f(0xEB) == 0x37D83BF0
    && f(0xEC) == 0xA9BCAE53 && f(0xED) == 0xDEBB9EC5 && f(0xEE) == 0x47B2CF7F && f(0xEF) == 0x30B5FFE9
  }

  lemma Crc32Steps14()
    ensures Crc32Values14(Stepper(CRC32_POLY))
  {
  }

  lemma Crc32Select14(f: bv32 -> bv32, i: bv32)
    requires 0xE0 <= i <= 0xEF && Crc32Values14(f)
    ensures Crc32Part14(i) == f(i)
  {
  }

  function Crc32Part15(i: bv32): bv32
    requires 0xF0 <= i <= 0xFF
  {
    if i == 0xF0 then 0xBDBDF21C else if i == 0xF1 then 0xCABAC28A else if i == 0xF2 then 0x53B39330 else if i == 0xF3 then 0x24B4A3A6 else
    if i == 0xF4 then 0xBAD03605 else if i == 0xF5 then 0xCDD70693 else if i == 0xF6 then 0x54DE5729 else if i == 0xF7 then 0x23D967BF else
    if i == 0xF8 then 0xB3667A2E else if i == 0xF9 then 0xC4614AB8 else if i == 0xFA then 0x5D681B02 else if i == 0xFB then 0x2A6F2B94 else
    if i == 0xFC then 0xB40BBE37 else if i == 0xFD then 0xC30C8EA1 else if i == 0xFE then 0x5A05DF1B else 0x2D02EF8D
  }

  predicate Crc32Values15(f: bv32 -> bv32) {
    && f(0xF0) == 0xBDBDF21C && f(0xF1) == 0xCABAC28A && f(0xF2) == 0x53B39330 && f(0xF3) == 0x24B4A3A6
    && f(0xF4) == 0xBAD03605 && f(0xF5) == 0xCDD70693 && f(0xF6) == 0x54DE5729 && f(0xF7) == 0x23D967BF
    && f(0xF8) == 0xB3667A2E && f(0xF9) == 0xC4614AB8 && f(0xFA) == 0x5D681B02 && f(0xFB) == 0x2A6F2B94
    && f(0xFC) == 0xB40BBE37 && f(0xFD) == 0xC30C8EA1 && f(0xFE) == 0x5A05DF1B && f(0xFF) == 0x2D02EF8D
  }

  lemma Crc32Steps15()
    ensures Crc32Values15(Stepper(CRC32_POLY))
  {
  }

  lemma Crc32Select15(f: bv32 -> bv32, i: bv32)
    requires 0xF0 <= i <= 0xFF && Crc32Values15(f)
    ensures Crc32Part15(i) == f(i)
  {
  }

  function Crc32cTable(i: bv32): bv32
    requires i <= 0xFF
  {
    if i <= 0x0F then Crc32cPart0(i) else
    if i <= 0x1F then Crc32cPart1(i) else
    if i <= 0x2F then Crc32cPart2(i) else
    if i <= 0x3F then Crc32cPart3(i) else
    if i <= 0x4F then Crc32cPart4(i) else
    if i <= 0x5F then Crc32cPart5(i) else
    if i <= 0x6F then Crc32cPart6(i) else
    if i <= 0x7F then Crc32cPart7(i) else
    if i <= 0x8F then Crc32cPart8(i) else
    if i <= 0x9F then Crc32cPart9(i) else
    if i <= 0xAF then Crc32cPart10(i) else
    if i <= 0xBF then Crc32cPart11(i) else
    if i <= 0xCF then Crc32cPart12(i) else
    if i <= 0xDF then Crc32cPart13(i) else
    if i <= 0xEF then Crc32cPart14(i) else
    Crc32cPart15(i)
  }

  predicate Crc32cValues(f: bv32 -> bv32) {
    && Crc32cValues0(f) && Crc32cValues1(f) && Crc32cValues2(f) && Crc32cValues3(f)
    && Crc32cValues4(f) && Crc32cValues5(f) && Crc32cValues6(f) && Crc32cValues7(f)
    && Crc32cValues8(f) && Crc32cValues9(f) && Crc32cValues10(f) && Crc32cValues11(f)
    && Crc32cValues12(f) && Crc32cValues13(f) && Crc32cValues14(f) && Crc32cValues15(f)
  }

  lemma Crc32cSelect(f: bv32 -> bv32, i: bv32)
    requires i <= 0xFF && Crc32cValues(f)
    ensures Crc32cTable(i) == f(i)
  {
    if i <= 0x0F {
      Crc32cSelect0(f, i);
    } else if i <= 0x1F {
      Crc32cSelect1(f, i);
    } else if i <= 0x2F {
      Crc32cSelect2(f, i);
    } else if i <= 0x3F {
      Crc32cSelect3(f, i);
    } else if i <= 0x4F {
      Crc32cSelect4(f, i);
    } else if i <= 0x5F {
      Crc32cSelect5(f, i);
    } else if i <= 0x6F {
      Crc32cSelect6(f, i);
    } else if i <= 0x7F {
      Crc32cSelect7(f, i);
    } else if i <= 0x8F {
      Crc32cSelect8(f, i);
    } else if i <= 0x9F {
      Crc32cSelect9(f, i);
    } else if i <= 0xAF {
      Crc32cSelect10(f, i);
    } else if i <= 0xBF {
      Crc32cSelect11(f, i);
    } else if i <= 0xCF {
      Crc32cSelect12(f, i);
    } else if i <= 0xDF {
      Crc32cSelect13(f, i);
    } else if i <= 0xEF {
      Crc32cSelect14(f, i);
    } else {
      Crc32cSelect15(f, i);
    }
  }

  lemma Crc32cSteps()
    ensures Crc32cValues(Stepper(CRC32C_POLY))
  {
    Crc32cSteps0();
    Crc32cSteps1();
    Crc32cSteps2();
    Crc32cSteps3();
    Crc32cSteps4();
    Crc32cSteps5();
    Crc32cSteps6();
    Crc32cSteps7();
    Crc32cSteps8();
    Crc32cSteps9();
    Crc32cSteps10();
    Crc32cSteps11();
    Crc32cSteps12();
    Crc32cSteps13();
    Crc32cSteps14();
    Crc32cSteps15();
  }

  function Crc32cPart0(i: bv32): bv32
    requires 0x00 <= i <= 0x0F
  {
    if i == 0x00 then 0x00000000 else if i == 0x01 then 0xF26B8303 else if i == 0x02 then 0xE13B70F7 else if i == 0x03 then 0x1350F3F4 else
    if i == 0x04 then 0xC79A971F else if i == 0x05 then 0x35F1141C else if i == 0x06 then 0x26A1E7E8 else if i == 0x07 then 0xD4CA64EB else
    if i == 0x08 then 0x8AD958CF else if i == 0x09 then 0x78B2DBCC else if i == 0x0A then 0x6BE22838 else if i == 0x0B then 0x9989AB3B else
    if i == 0x0C then 0x4D43CFD0 else if i == 0x0D then 0xBF284CD3 else if i == 0x0E then 0xAC78BF27 else 0x5E133C24
  }

  predicate Crc32cValues0(f: bv32 -> bv32) {
    && f(0x00) == 0x00000000 && f(0x01) == 0xF26B8303 && f(0x02) == 0xE13B70F7 && f(0x03) == 0x1350F3F4
    && f(0x04) == 0xC79A971F && f(0x05) == 0x35F1141C && f(0x06) == 0x26A1E7E8 && f(0x07) == 0xD4CA64EB
    && f(0x08) == 0x8AD958CF && f(0x09) == 0x78B2DBCC && f(0x0A) == 0x6BE22838 && f(0x0B) == 0x9989AB3B
    && f(0x0C) == 0x4D43CFD0 && f(0x0D) == 0xBF284CD3 && f(0x0E) == 0xAC78BF27 && f(0x0F) == 0x5E133C24
  }

  lemma Crc32cSteps0()
    ensures Crc32cValues0(Stepper(CRC32C_POLY))
  {
  }

  lemma Crc32cSelect0(f: bv32 -> bv32, i: bv32)
    requires 0x00 <= i <= 0x0F && Crc32cValues0(f)
    ensures Crc32cPart0(i) == f(i)
  {
  }

  function Crc32cPart1(i: bv32): bv32
    requires 0x10 <= i <= 0x1F
  {
    if i == 0x10 then 0x105EC76F else if i == 0x11 then 0xE235446C else if i == 0x12 then 0xF165B798 else if i == 0x13 then 0x030E349B else
    if i == 0x14 then 0xD7C45070 else if i == 0x15 then 0x25AFD373 else if i == 0x16 then 0x36FF2087 else if i == 0x17 then 0xC494A384 else
    if i == 0x18 then 0x9A879FA0 else if i == 0x19 then 0x68EC1CA3 else if i == 0x1A then 0x7BBCEF57 else if i == 0x1B then 0x89D76C54 else
    if i == 0x1C then 0x5D1D08BF else if i == 0x1D then 0xAF768BBC else if i == 0x1E then 0xBC267848 else 0x4E4DFB4B
  }

  predicate Crc32cValues1(f: bv32 -> bv32) {
    && f(0x10) == 0x105EC76F && f(0x11) == 0xE235446C && f(0x12) == 0xF165B798 && f(0x13) == 0x030E349B
    && f(0x14) == 0xD7C45070 && f(0x15) == 0x25AFD373 && f(0x16) == 0x36FF2087 && f(0x17) == 0xC494A384
    && f(0x18) == 0x9A879FA0 && f(0x19) == 0x68EC1CA3 && f(0x1A) == 0x7BBCEF57 && f(0x1B) == 0x89D76C54
    && f(0x1C) == 0x5D1D08BF && f(0x1D) == 0xAF768BBC && f(0x1E) == 0xBC267848 && f(0x1F) == 0x4E4DFB4B
  }

  lemma Crc32cSteps1()
    ensures Crc32cValues1(Stepper(CRC32C_POLY))
  {
  }

  lemma Crc32cSelect1(f: bv32 -> bv32, i: bv32)
    requires 0x10 <= i <= 0x1F && Crc32cValues1(f)
    ensures Crc32cPart1(i) == f(i)
  {
  }

  function Crc32cPart2(i: bv32): bv32
    requires 0x20 <= i <= 0x2F
  {
    if i == 0x20 then 0x20BD8EDE else if i == 0x21 then 0xD2D60DDD else if i == 0x22 then 0xC186FE29 else if i == 0x23 then 0x33ED7D2A else
    if i == 0x24 then 0xE72719C1 else if i == 0x25 then 0x154C9AC2 else if i == 0x26 then 0x061C6936 else if i == 0x27 then 0xF477EA35 else
    if i == 0x28 then 0xAA64D611 else if i == 0x29 then 0x580F5512 else if i == 0x2A then 0x4B5FA6E6 else if i == 0x2B then 0xB93425E5 else
    if i == 0x2C then 0x6DFE410E else if i == 0x2D then 0x9F95C20D else if i == 0x2E then 0x8CC531F9 else 0x7EAEB2FA
  }

  predicate Crc32cValues2(f: bv32 -> bv32) {
    && f(0x20) == 0x20BD8EDE && f(0x21) == 0xD2D60DDD && f(0x22) == 0xC186FE29 && f(0x23) == 0x33ED7D2A
    && f(0x24) == 0xE72719C1 && f(0x25) == 0x154C9AC2 && f(0x26) == 0x061C6936 && f(0x27) == 0xF477EA35
    && f(0x28) == 0xAA64D611 && f(0x29) == 0x580F5512 && f(0x2A) == 0x4B5FA6E6 && f(0x2B) == 0xB93425E5
    && f(0x2C) == 0x6DFE410E && f(0x2D) == 0x9F95C20D && f(0x2E) == 0x8CC531F9 && f(0x2F) == 0x7EAEB2FA
  }

  lemma Crc32cSteps2()
    ensures Crc32cValues2(Stepper(CRC32C_POLY))
  {
  }

  lemma Crc32cSelect2(f: bv32 -> bv32, i: bv32)
    requires 0x20 <= i <= 0x2F && Crc32cValues2(f)
    ensures Crc32cPart2(i) == f(i)
  {
  }

  function Crc32cPart3(i: bv32): bv32
    requires 0x30 <= i <= 0x3F
  {
    if i == 0x30 then 0x30E349B1 else if i == 0x31 then 0xC288CAB2 else if i == 0x32 then 0xD1D83946 else if i == 0x33 then 0x23B3BA45 else
    if i == 0x34 then 0xF779DEAE else if i == 0x35 then 0x05125DAD else if i == 0x36 then 0x1642AE59 else if i == 0x37 then 0xE4292D5A else
    if i == 0x38 then 0xBA3A117E else if i == 0x39 then 0x4851927D else if i == 0x3A then 0x5B016189 else if i == 0x3B then 0xA96AE28A else
    if i == 0x3C then 0x7DA08661 else if i == 0x3D then 0x8FCB0562 else if i == 0x3E then 0x9C9BF696 else 0x6EF07595
  }

  predicate Crc32cValues3(f: bv32 -> bv32) {
    && f(0x30) == 0x30E349B1 && f(0x31) == 0xC288CAB2 && f(0x32) == 0xD1D83946 && f(0x33) == 0x23B3BA45
    && f(0x34) == 0xF779DEAE && f(0x35) == 0x05125DAD && f(0x36) == 0x1642AE59 && f(0x37) == 0xE4292D5A
    && f(0x38) == 0xBA3A117E && f(0x39) == 0x4851927D && f(0x3A) == 0x5B016189 && f(0x3B) == 0xA96AE28A
    && f(0x3C) == 0x7DA08661 && f(0x3D) == 0x8FCB0562 && f(0x3E) == 0x9C9BF696 && f(0x3F) == 0x6EF07595
  }

  lemma Crc32cSteps3()
    ensures Crc32cValues3(Stepper(CRC32C_POLY))
  {
  }

  lemma Crc32cSelect3(f: bv32 -> bv32, i: bv32)
    requires 0x30 <= i <= 0x3F && Crc32cValues3(f)
    ensures Crc32cPart3(i) == f(i)
  {
  }

  function Crc32cPart4(i: bv32): bv32
    requires 0x40 <= i <= 0x4F
  {
    if i == 0x40 then 0x417B1DBC else if i == 0x41 then 0xB3109EBF else if i == 0x42 then 0xA0406D4B else if i == 0x43 then 0x522BEE48 else
    if i == 0x44 then 0x86E18AA3 else if i == 0x45 then 0x748A09A0 else if i == 0x46 then 0x67DAFA54 else if i == 0x47 then 0x95B17957 else
    if i == 0x48 then 0xCBA24573 else if i == 0x49 then 0x39C9C670 else if i == 0x4A then 0x2A993584 else if i == 0x4B then 0xD8F2B687 else
    if i == 0x4C then 0x0C38D26C else if i == 0x4D then 0xFE53516F else if i == 0x4E then 0xED03A29B else 0x1F682198
  }

  predicate Crc32cValues4(f: bv32 -> bv32) {
    && f(0x40) == 0x417B1DBC && f(0x41) == 0xB3109EBF && f(0x42) == 0xA0406D4B && f(0x43) == 0x522BEE48
    && f(0x44) == 0x86E18AA3 && f(0x45) == 0x748A09A0 && f(0x46) == 0x67DAFA54 && f(0x47) == 0x95B17957
    && f(0x48) == 0xCBA24573 && f(0x49) == 0x39C9C670 && f(0x4A) == 0x2A993584 && f(0x4B) == 0xD8F2B687
    && f(0x4C) == 0x0C38D26C && f(0x4D) == 0xFE53516F && f(0x4E) == 0xED03A29B && f(0x4F) == 0x1F682198
  }

  lemma Crc32cSteps4()
    ensures Crc32cValues4(Stepper(CRC32C_POLY))
  {
  }

  lemma Crc32cSelect4(f: bv32 -> bv32, i: bv32)
    requires 0x40 <= i <= 0x4F && Crc32cValues4(f)
    ensures Crc32cPart4(i) == f(i)
  {
  }

  function Crc32cPart5(i: bv32): bv32
    requires 0x50 <= i <= 0x5F
  {
    if i == 0x50 then 0x5125DAD3 else if i == 0x51 then 0xA34E59D0 else if i == 0x52 then 0xB01EAA24 else if i == 0x53 then 0x42752927 else
    if i == 0x54 then 0x96BF4DCC else if i == 0x55 then 0x64D4CECF else if i == 0x56 then 0x77843D3B else if i == 0x57 then 0x85EFBE38 else
    if i == 0x58 then 0xDBFC821C else if i == 0x59 then 0x2997011F else if i == 0x5A then 0x3AC7F2EB else if i == 0x5B then 0xC8AC71E8 else
    if i == 0x5C then 0x1C661503 else if i == 0x5D then 0xEE0D9600 else if i == 0x5E then 0xFD5D65F4 else 0x0F36E6F7
  }

  predicate Crc32cValues5(f: bv32 -> bv32) {
    && f(0x50) == 0x5125DAD3 && f(0x51) == 0xA34E59D0 && f(0x52) == 0xB01EAA24 && f(0x53) == 0x42752927
    && f(0x54) == 0x96BF4DCC && f(0x55) == 0x64D4CECF && f(0x56) == 0x77843D3B && f(0x57) == 0x85EFBE38
    && f(0x58) == 0xDBFC821C && f(0x59) == 0x2997011F && f(0x5A) == 0x3AC7F2EB && f(0x5B) == 0xC8AC71E8
    && f(0x5C) == 0x1C661503 && f(0x5D) == 0xEE0D9600 && f(0x5E) == 0xFD5D65F4 && f(0x5F) == 0x0F36E6F7
  }

  lemma Crc32cSteps5()
    ensures Crc32cValues5(Stepper(CRC32C_POLY))
  {
  }

  lemma Crc32cSelect5(f: bv32 -> bv32, i: bv32)
    requires 0x50 <= i <= 0x5F && Crc32cValues5(f)
    ensures Crc32cPart5(i) == f(i)
  {
  }

  function Crc32cPart6(i: bv32): bv32
    requires 0x60 <= i <= 0x6F
  {
    if i == 0x60 then 0x61C69362 else if i == 0x61 then 0x93AD1061 else if i == 0x62 then 0x80FDE395 else if i == 0x63 then 0x72966096 else
    if i == 0x64 then 0xA65C047D else if i == 0x65 then 0x5437877E else if i == 0x66 then 0x4767748A else if i == 0x67 then 0xB50CF789 else
    if i == 0x68 then 0xEB1FCBAD else if i == 0x69 then 0x197448AE else if i == 0x6A then 0x0A24BB5A else if i == 0x6B then 0xF84F3859 else
    if i == 0x6C then 0x2C855CB2 else if i == 0x6D then 0xDEEEDFB1 else if i == 0x6E then 0xCDBE2C45 else 0x3FD5AF46
  }

  predicate Crc32cValues6(f: bv32 -> bv32) {
    && f(0x60) == 0x61C69362 && f(0x61) == 0x93AD1061 && f(0x62) == 0x80FDE395 && f(0x63) == 0x72966096
    && f(0x64) == 0xA65C047D && f(0x65) == 0x5437877E && f(0x66) == 0x4767748A && f(0x67) == 0xB50CF789
    && f(0x68) == 0xEB1FCBAD && f(0x69) == 0x197448AE && f(0x6A) == 0x0A24BB5A && f(0x6B) == 0xF84F3859
    && f(0x6C) == 0x2C855CB2 && f(0x6D) == 0xDEEEDFB1 && f(0x6E) == 0xCDBE2C45 && f(0x6F) == 0x3FD5AF46
  }

  lemma Crc32cSteps6()
    ensures Crc32cValues6(Stepper(CRC32C_POLY))
  {
  }

  lemma Crc32cSelect6(f: bv32 -> bv32, i: bv32)
    requires 0x60 <= i <= 0x6F && Crc32cValues6(f)
    ensures Crc32cPart6(i) == f(i)
  {
  }

  function Crc32cPart7(i: bv32): bv32
    requires 0x70 <= i <= 0x7F
  {
    if i == 0x70 then 0x7198540D else if i == 0x71 then 0x83F3D70E else if i == 0x72 then 0x90A324FA else if i == 0x73 then 0x62C8A7F9 else
    if i == 0x74 then 0xB602C312 else if i == 0x75 then 0x44694011 else if i == 0x76 then 0x5739B3E5 else if i == 0x77 then 0xA55230E6 else
    if i == 0x78 then 0xFB410CC2 else if i == 0x79 then 0x092A8FC1 else if i == 0x7A then 0x1A7A7C35 else if i == 0x7B then 0xE811FF36 else
    if i == 0x7C then 0x3CDB9BDD else if i == 0x7D then 0xCEB018DE else if i == 0x7E then 0xDDE0EB2A else 0x2F8B6829
  }

  predicate Crc32cValues7(f: bv32 -> bv32) {
    && f(0x70) == 0x7198540D && f(0x71) == 0x83F3D70E && f(0x72) == 0x90A324FA && f(0x73) == 0x62C8A7F9
    && f(0x74) == 0xB602C312 && f(0x75) == 0x44694011 && f(0x76) == 0x5739B3E5 && f(0x77) == 0xA55230E6
    && f(0x78) == 0xFB410CC2 && f(0x79) == 0x092A8FC1 && f(0x7A) == 0x1A7A7C35 && f(0x7B) == 0xE811FF36
    && f(0x7C) == 0x3CDB9BDD && f(0x7D) == 0xCEB018DE && f(0x7E) == 0xDDE0EB2A && f(0x7F) == 0x2F8B6829
  }

  lemma Crc32cSteps7()
    ensures Crc32cValues7(Stepper(CRC32C_POLY))
  {
  }

  lemma Crc32cSelect7(f: bv32 -> bv32, i: bv32)
    requires 0x70 <= i <= 0x7F && Crc32cValues7(f)
    ensures Crc32cPart7(i) == f(i)
  {
  }

  function Crc32cPart8(i: bv32): bv32
    requires 0x80 <= i <= 0x8F
  {
    if i == 0x80 then 0x82F63B78 else if i == 0x81 then 0x709DB87B else if i == 0x82 then 0x63CD4B8F else if i == 0x83 then 0x91A6C88C else
    if i == 0x84 then 0x456CAC67 else if i == 0x85 then 0xB7072F64 else if i == 0x86 then 0xA457DC90 else if i == 0x87 then 0x563C5F93 else
    if i == 0x88 then 0x082F63B7 else if i == 0x89 then 0xFA44E0B4 else if i == 0x8A then 0xE9141340 else if i == 0x8B then 0x1B7F9043 else
    if i == 0x8C then 0xCFB5F4A8 else if i == 0x8D then 0x3DDE77AB else if i == 0x8E then 0x2E8E845F else 0xDCE5075C
  }

  predicate Crc32cValues8(f: bv32 -> bv32) {
    && f(0x80) == 0x82F63B78 && f(0x81) == 0x709DB87B && f(0x82) == 0x63CD4B8F && f(0x83) == 0x91A6C88C
    && f(0x84) == 0x456CAC67 && f(0x85) == 0xB7072F64 && f(0x86) == 0xA457DC90 && f(0x87) == 0x563C5F93
    && f(0x88) == 0x082F63B7 && f(0x89) == 0xFA44E0B4 && f(0x8A) == 0xE9141340 && f(0x8B) == 0x1B7F9043
    && f(0x8C) == 0xCFB5F4A8 && f(0x8D) == 0x3DDE77AB && f(0x8E) == 0x2E8E845F && f(0x8F) == 0xDCE5075C
  }

  lemma Crc32cSteps8()
    ensures Crc32cValues8(Stepper(CRC32C_POLY))
  {
  }

  lemma Crc32cSelect8(f: bv32 -> bv32, i: bv32)
    requires 0x80 <= i <= 0x8F && Crc32cValues8(f)
    ensures Crc32cPart8(i) == f(i)
  {
  }

  function Crc32cPart9(i: bv32): bv32
    requires 0x90 <= i <= 0x9F
  {
    if i == 0x90 then 0x92A8FC17 else if i == 0x91 then 0x60C37F14 else if i == 0x92 then 0x73938CE0 else if i == 0x93 then 0x81F80FE3 else
    if i == 0x94 then 0x55326B08 else if i == 0x95 then 0xA759E80B else if i == 0x96 then 0xB4091BFF else if i == 0x97 then 0x466298FC else
    if i == 0x98 then 0x1871A4D8 else if i == 0x99 then 0xEA1A27DB else if i == 0x9A then 0xF94AD42F else if i == 0x9B then 0x0B21572C else
    if i == 0x9C then 0xDFEB33C7 else if i == 0x9D then 0x2D80B0C4 else if i == 0x9E then 0x3ED04330 else 0xCCBBC033
  }

  predicate Crc32cValues9(f: bv32 -> bv32) {
    && f(0x90) == 0x92A8FC17 && f(0x91) == 0x60C37F14 && f(0x92) == 0x73938CE0 && f(0x93) == 0x81F80FE3
    && f(0x94) == 0x55326B08 && f(0x95) == 0xA759E80B && f(0x96) == 0xB4091BFF && f(0x97) == 0x466298FC
    && f(0x98) == 0x1871A4D8 && f(0x99) == 0xEA1A27DB && f(0x9A) == 0xF94AD42F && f(0x9B) == 0x0B21572C
    && f(0x9C) == 0xDFEB33C7 && f(0x9D) == 0x2D80B0C4 && f(0x9E) == 0x3ED04330 && f(0x9F) == 0xCCBBC033
  }

  lemma Crc32cSteps9()
    ensures Crc32cValues9(Stepper(CRC32C_POLY))
  {
  }

  lemma Crc32cSelect9(f: bv32 -> bv32, i: bv32)
    requires 0x90 <= i <= 0x9F && Crc32cValues9(f)
    ensures Crc32cPart9(i) == f(i)
  {
  }

  function Crc32cPart10(i: bv32): bv32
    requires 0xA0 <= i <= 0xAF
  {
    if i == 0xA0 then 0xA24BB5A6 else if i == 0xA1 then 0x502036A5 else if i == 0xA2 then 0x4370C551 else if i == 0xA3 then 0xB11B4652 else
    if i == 0xA4 then 0x65D122B9 else if i == 0xA5 then 0x97BAA1BA else if i == 0xA6 then 0x84EA524E else if i == 0xA7 then 0x7681D14D else
    if i == 0xA8 then 0x2892ED69 else if i == 0xA9 then 0xDAF96E6A else if i == 0xAA then 0xC9A99D9E else if i == 0xAB then 0x3BC21E9D else
    if i == 0xAC then 0xEF087A76 else if i == 0xAD then 0x1D63F975 else if i == 0xAE then 0x0E330A81 else 0xFC588982
  }

  predicate Crc32cValues10(f: bv32 -> bv32) {
    && f(0xA0) == 0xA24BB5A6 && f(0xA1) == 0x502036A5 && f(0xA2) == 0x4370C551 && f(0xA3) == 0xB11B4652
    && f(0xA4) == 0x65D122B9 && f(0xA5) == 0x97BAA1BA && f(0xA6) == 0x84EA524E && f(0xA7) == 0x7681D14D
    && f(0xA8) == 0x2892ED69 && f(0xA9) == 0xDAF96E6A && f(0xAA) == 0xC9A99D9E && f(0xAB) == 0x3BC21E9D
    && f(0xAC) == 0xEF087A76 && f(0xAD) == 0x1D63F975 && f(0xAE) == 0x0E330A81 && f(0xAF) == 0xFC588982
  }

  lemma Crc32cSteps10()
    ensures Crc32cValues10(Stepper(CRC32C_POLY))
  {
  }

  lemma Crc32cSelect10(f: bv32 -> bv32, i: bv32)
    requires 0xA0 <= i <= 0xAF && Crc32cValues10(f)
    ensures Crc32cPart10(i) == f(i)
  {
  }

  function Crc32cPart11(i: bv32): bv32
    requires 0xB0 <= i <= 0xBF
  {
    if i == 0xB0 then 0xB21572C9 else if i == 0xB1 then 0x407EF1CA else if i == 0xB2 then 0x532E023E else if i == 0xB3 then 0xA145813D else
    if i == 0xB4 then 0x758FE5D6 else if i == 0xB5 then 0x87E466D5 else if i == 0xB6 then 0x94B49521 else if i == 0xB7 then 0x66DF1622 else
    if i == 0xB8 then 0x38CC2A06 else if i == 0xB9 then 0xCAA7A905 else if i == 0xBA then 0xD9F75AF1 else if i == 0xBB then 0x2B9CD9F2 else
    if i == 0xBC then 0xFF56BD19 else if i == 0xBD then 0x0D3D3E1A else if i == 0xBE then 0x1E6DCDEE else 0xEC064EED
  }

  predicate Crc32cValues11(f: bv32 -> bv32) {
    && f(0xB0) == 0xB21572C9 && f(0xB1) == 0x407EF1CA && f(0xB2) == 0x532E023E && f(0xB3) == 0xA145813D
    && f(0xB4) == 0x758FE5D6 && f(0xB5) == 0x87E466D5 && f(0xB6) == 0x94B49521 && f(0xB7) == 0x66DF1622
    && f(0xB8) == 0x38CC2A06 && f(0xB9) == 0xCAA7A905 && f(0xBA) == 0xD9F75AF1 && f(0xBB) == 0x2B9CD9F2
    && f(0xBC) == 0xFF56BD19 && f(0xBD) == 0x0D3D3E1A && f(0xBE) == 0x1E6DCDEE && f(0xBF) == 0xEC064EED
  }

  lemma Crc32cSteps11()
    ensures Crc32cValues11(Stepper(CRC32C_POLY))
  {
  }

  lemma Crc32cSelect11(f: bv32 -> bv32, i: bv32)
    requires 0xB0 <= i <= 0xBF && Crc32cValues11(f)
    ensures Crc32cPart11(i) == f(i)
  {
  }

  function Crc32cPart12(i: bv32): bv32
    requires 0xC0 <= i <= 0xCF
  {
    if i == 0xC0 then 0xC38D26C4 else if i == 0xC1 then 0x31E6A5C7 else if i == 0xC2 then 0x22B65633 else if i == 0xC3 then 0xD0DDD530 else
    if i == 0xC4 then 0x0417B1DB else if i == 0xC5 then 0xF67C32D8 else if i == 0xC6 then 0xE52CC12C else if i == 0xC7 then 0x1747422F else
    if i == 0xC8 then 0x49547E0B else if i == 0xC9 then 0xBB3FFD08 else if i == 0xCA then 0xA86F0EFC else if i == 0xCB then 0x5A048DFF else
    if i == 0xCC then 0x8ECEE914 else if i == 0xCD then 0x7CA56A17 else if i == 0xCE then 0x6FF599E3 else 0x9D9E1AE0
  }

  predicate Crc32cValues12(f: bv32 -> bv32) {
    && f(0xC0) == 0xC38D26C4 && f(0xC1) == 0x31E6A5C7 && f(0xC2) == 0x22B65633 && f(0xC3) == 0xD0DDD530
    && f(0xC4) == 0x0417B1DB && f(0xC5) == 0xF67C32D8 && f(0xC6) == 0xE52CC12C && f(0xC7) == 0x1747422F
    && f(0xC8) == 0x49547E0B && f(0xC9) == 0xBB3FFD08 && f(0xCA) == 0xA86F0EFC && f(0xCB) == 0x5A048DFF
    && f(0xCC) == 0x8ECEE914 && f(0xCD) == 0x7CA56A17 && f(0xCE) == 0x6FF599E3 && f(0xCF) == 0x9D9E1AE0
  }

  lemma Crc32cSteps12()
    ensures Crc32cValues12(Stepper(CRC32C_POLY))
  {
  }

  lemma Crc32cSelect12(f: bv32 -> bv32, i: bv32)
    requires 0xC0 <= i <= 0xCF && Crc32cValues12(f)
    ensures Crc32cPart12(i) == f(i)
  {
  }

  function Crc32cPart13(i: bv32): bv32
    requires 0xD0 <= i <= 0xDF
  {
    if i == 0xD0 then 0xD3D3E1AB else if i == 0xD1 then 0x21B862A8 else if i == 0xD2 then 0x32E8915C else if i == 0xD3 then 0xC083125F else
    if i == 0xD4 then 0x144976B4 else if i == 0xD5 then 0xE622F5B7 else if i == 0xD6 then 0xF5720643 else if i == 0xD7 then 0x07198540 else
    if i == 0xD8 then 0x590AB964 else if i == 0xD9 then 0xAB613A67 else if i == 0xDA then 0xB831C993 else if i == 0xDB then 0x4A5A4A90 else
    if i == 0xDC then 0x9E902E7B else if i == 0xDD then 0x6CFBAD78 else if i == 0xDE then 0x7FAB5E8C else 0x8DC0DD8F
  }

  predicate Crc32cValues13(f: bv32 -> bv32) {
    && f(0xD0) == 0xD3D3E1AB && f(0xD1) == 0x21B862A8 && f(0xD2) == 0x32E8915C && f(0xD3) == 0xC083125F
    && f(0xD4) == 0x144976B4 && f(0xD5) == 0xE622F5B7 && f(0xD6) == 0xF5720643 && f(0xD7) == 0x07198540
    && f(0xD8) == 0x590AB964 && f(0xD9) == 0xAB613A67 && f(0xDA) == 0xB831C993 && f(0xDB) == 0x4A5A4A90
    && f(0xDC) == 0x9E902E7B && f(0xDD) == 0x6CFBAD78 && f(0xDE) == 0x7FAB5E8C && f(0xDF) == 0x8DC0DD8F
  }

  lemma Crc32cSteps13()
    ensures Crc32cValues13(Stepper(CRC32C_POLY))
  {
  }

  lemma Crc32cSelect13(f: bv32 -> bv32, i: bv32)
    requires 0xD0 <= i <= 0xDF && Crc32cValues13(f)
    ensures Crc32cPart13(i) == f(i)
  {
  }

  function Crc32cPart14(i: bv32): bv32
    requires 0xE0 <= i <= 0xEF
  {
    if i == 0xE0 then 0xE330A81A else if i == 0xE1 then 0x115B2B19 else if i == 0xE2 then 0x020BD8ED else if i == 0xE3 then 0xF0605BEE else
    if i == 0xE4 then 0x24AA3F05 else if i == 0xE5 then 0xD6C1BC06 else if i == 0xE6 then 0xC5914FF2 else if i == 0xE7 then 0x37FACCF1 else
    if i == 0xE8 then 0x69E9F0D5 else if i == 0xE9 then 0x9B8273D6 else if i == 0xEA then 0x88D28022 else if i == 0xEB then 0x7AB90321 else
    if i == 0xEC then 0xAE7367CA else if i == 0xED then 0x5C18E4C9 else if i == 0xEE then 0x4F48173D else 0xBD23943E
  }

  predicate Crc32cValues14(f: bv32 -> bv32) {
    && f(0xE0) == 0xE330A81A && f(0xE1) == 0x115B2B19 && f(0xE2) == 0x020BD8ED && f(0xE3) == 0xF0605BEE
    && f(0xE4) == 0x24AA3F05 && f(0xE5) == 0xD6C1BC06 && f(0xE6) == 0xC5914FF2 && f(0xE7) == 0x37FACCF1
    && f(0xE8) == 0x69E9F0D5 && f(0xE9) == 0x9B8273D6 && f(0xEA) == 0x88D28022 && f(0xEB) == 0x7AB90321
    && f(0xEC) == 0xAE7367CA && f(0xED) == 0x5C18E4C9 && f(0xEE) == 0x4F48173D && f(0xEF) == 0xBD23943E
  }

  lemma Crc32cSteps14()
    ensures Crc32cValues14(Stepper(CRC32C_POLY))
  {
  }

  lemma Crc32cSelect14(f: bv32 -> bv32, i: bv32)
    requires 0xE0 <= i <= 0xEF && Crc32cValues14(f)
    ensures Crc32cPart14(i) == f(i)
  {
  }

  function Crc32cPart15(i: bv32): bv32
    requires 0xF0 <= i <= 0xFF
  {
    if i == 0xF0 then 0xF36E6F75 else if i == 0xF1 then 0x0105EC76 else if i == 0xF2 then 0x12551F82 else if i == 0xF3 then 0xE03E9C81 else
    if i == 0xF4 then 0x34F4F86A else if i == 0xF5 then 0xC69F7B69 else if i == 0xF6 then 0xD5CF889D else if i == 0xF7 then 0x27A40B9E else
    if i == 0xF8 then 0x79B737BA else if i == 0xF9 then 0x8BDCB4B9 else if i == 0xFA then 0x988C474D else if i == 0xFB then 0x6AE7C44E else
    if i == 0xFC then 0xBE2DA0A5 else if i == 0xFD then 0x4C4623A6 else if i == 0xFE then 0x5F16D052 else 0xAD7D5351
  }

  predicate Crc32cValues15(f: bv32 -> bv32) {
    && f(0xF0) == 0xF36E6F75 && f(0xF1) == 0x0105EC76 && f(0xF2) == 0x12551F82 && f(0xF3) == 0xE03E9C81
    && f(0xF4) == 0x34F4F86A && f(0xF5) == 0xC69F7B69 && f(0xF6) == 0xD5CF889D && f(0xF7) == 0x27A40B9E
    && f(0xF8) == 0x79B737BA && f(0xF9) == 0x8BDCB4B9 && f(0xFA) == 0x988C474D && f(0xFB) == 0x6AE7C44E
    && f(0xFC) == 0xBE2DA0A5 && f(0xFD) == 0x4C4623A6 && f(0xFE) == 0x5F16D052 && f(0xFF) == 0xAD7D5351
  }

  lemma Crc32cSteps15()
    ensures Crc32cValues15(Stepper(CRC32C_POLY))
  {
  }

  lemma Crc32cSelect15(f: bv32 -> bv32, i: bv32)
    requires 0xF0 <= i <= 0xFF && Crc32cValues15(f)
    ensures Crc32cPart15(i) == f(i)
  {
  }
}
