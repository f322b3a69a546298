/** Words read from the default secret, from zeros and from bytes that were written as words. */
module Xxh3Reads {
  import opened Stripes
  import opened Xxh64
  import opened Xxh3Kernel

  /** Eight bytes as a word, spelled out. */
  function Horner(b0: bv8, b1: bv8, b2: bv8, b3: bv8, b4: bv8, b5: bv8, b6: bv8, b7: bv8): bv64 {
    (b0 as bv64) | (((b1 as bv64) | (((b2 as bv64) | (((b3 as bv64) | (((b4 as bv64) | (((b5 as bv64)
      | (((b6 as bv64) | ((b7 as bv64) << 8)) << 8)) << 8)) << 8)) << 8)) << 8)) << 8)
  }

  lemma ReadSpelled(b: Bytes, i: nat)
    requires i + 8 <= |b|
    ensures ReadLE64(b, i) == Horner(b[i], b[i + 1], b[i + 2], b[i + 3], b[i + 4], b[i + 5], b[i + 6], b[i + 7])
  {
  }

  /** Reading from a part of the bytes. */
  lemma {:induction false} ReadPart(b: Bytes, x: nat, y: nat, i: nat, n: nat)
    requires x <= i && i + n <= y <= |b| && n <= 8
    ensures ReadLE(b, i, n) == ReadLE(b[x..y], i - x, n)
    decreases n
  {
    if n > 0 {
      ReadPart(b, x, y, i + 1, n - 1);
    }
  }

  // ----- zeros

  function Zeros(n: nat): (r: Bytes)
    ensures |r| == n
  {
    seq(n, i => 0)
  }

  lemma {:induction false} ZeroRead(b: Bytes, i: nat, n: nat)
    requires n <= 8 && i + n <= |b| && forall j :: i <= j < i + n ==> b[j] == 0
    ensures ReadLE(b, i, n) == 0
    decreases n
  {
    if n > 0 {
      ZeroRead(b, i + 1, n - 1);
    }
  }

  // ----- bytes written as words

  /** Reading back what was written. Left is what the n bytes do not hold. */
  lemma {:induction false} ReadBack(w: bv64, n: nat)
    requires n <= 8 && Left(w, n) == 0
    ensures ReadLE(LittleEnd(w, n), 0, n) == w
    decreases n
  {
    if n > 0 {
      ReadBack(w >> 8, n - 1);
      ReadOne(w, n, LittleEnd(w >> 8, n - 1), w >> 8);
    }
  }

  lemma ReadOne(w: bv64, n: nat, rest: Bytes, v: bv64)
    requires 0 < n <= 8 && |rest| == n - 1 && ReadLE(rest, 0, n - 1) == v == w >> 8
    ensures ReadLE([(w & 0xFF) as bv8] + rest, 0, n) == w
  {
    var b := [(w & 0xFF) as bv8] + rest;
    ReadPart(b, 1, n, 1, n - 1);
    assert b[1..n] == rest;
    LowByte(w);
  }

  function Left(w: bv64, n: nat): bv64
    decreases n
  {
    if n == 0 then w else Left(w >> 8, n - 1)
  }

  lemma LowByte(w: bv64)
    ensures (((w & 0xFF) as bv8) as bv64) | ((w >> 8) << 8) == w
  {
  }

  lemma NothingLeft(w: bv64)
    ensures Left(w, 8) == 0
  {
    assert ((((((((w >> 8) >> 8) >> 8) >> 8) >> 8) >> 8) >> 8) >> 8) == 0;
  }

  /** The part of Words between two words. */
  lemma {:induction false} WordsPart(word: nat -> Bytes, n: nat, i: nat)
    requires i < n && forall j :: |word(j)| == 8
    ensures |Words(word, n)| == 8 * n && Words(word, n)[8 * i..8 * i + 8] == word(i)
    ensures Words(word, n)[..8 * i] == Words(word, i)
    decreases n
  {
    WordsLength(word, n);
    WordsLength(word, n - 1);
    if i < n - 1 {
      WordsPart(word, n - 1, i);
    }
  }

  lemma WordRead(word: nat -> Bytes, n: nat, i: nat, w: bv64)
    requires i < n && (forall j :: |word(j)| == 8) && word(i) == WordBytes(w)
    ensures 8 * i + 8 <= |Words(word, n)| && ReadLE64(Words(word, n), 8 * i) == w
  {
    WordsPart(word, n, i);
    ReadPart(Words(word, n), 8 * i, 8 * i + 8, 8 * i, 8);
    NothingLeft(w);
    ReadBack(w, 8);
  }

  // ----- the default secret

  lemma Row0()
    ensures K_SECRET[0..16] == ROW0
  {
  }

  lemma Row1()
    ensures K_SECRET[16..32] == ROW1
  {
  }

  lemma Row2()
    ensures K_SECRET[32..48] == ROW2
  {
  }

  lemma Row3()
    ensures K_SECRET[48..64] == ROW3
  {
  }

  lemma Row4()
    ensures K_SECRET[64..80] == ROW4
  {
  }

  lemma Row5()
    ensures K_SECRET[80..96] == ROW5
  {
  }

  lemma Row6()
    ensures K_SECRET[96..112] == ROW6
  {
  }

  lemma Row7()
    ensures K_SECRET[112..128] == ROW7
  {
  }

  lemma Row8()
    ensures K_SECRET[128..144] == ROW8
  {
  }

  lemma Row9()
    ensures K_SECRET[144..160] == ROW9
  {
  }

  lemma Row10()
    ensures K_SECRET[160..176] == ROW10
  {
  }

  lemma Row11()
    ensures K_SECRET[176..192] == ROW11
  {
  }

  /** A read inside one row, and one across two. */
  lemma ReadRow(k: Bytes, row: Bytes, x: nat, i: nat)
    requires |row| == 16 && i + 8 <= 16 && x + 16 <= |k| && k[x..x + 16] == row
    ensures ReadLE64(k, x + i) == ReadLE64(row, i)
  {
    ReadPart(k, x, x + 16, x + i, 8);
  }

  lemma ReadRows(k: Bytes, row: Bytes, next: Bytes, x: nat, i: nat, b: Bytes)
    requires |row| == 16 == |next| && x + 32 <= |k| && 8 < i < 16
    requires k[x..x + 16] == row && k[x + 16..x + 32] == next && row[i..] + next[..i - 8] == b
    ensures ReadLE64(k, x + i) == ReadLE64(b, 0)
  {
    ReadPart(k, x + i, x + i + 8, x + i, 8);
    Crossing(k, row, next, x, i);
  }

  lemma Crossing(k: Bytes, row: Bytes, next: Bytes, x: nat, i: nat)
    requires |row| == 16 == |next| && x + 32 <= |k| && 8 < i < 16
    requires k[x..x + 16] == row && k[x + 16..x + 32] == next
    ensures k[x + i..x + i + 8] == row[i..] + next[..i - 8]
  {
    var b, c := k[x + i..x + i + 8], row[i..] + next[..i - 8];
    forall t | 0 <= t < 8 ensures b[t] == c[t] {
      if t < 16 - i {
        assert b[t] == k[x..x + 16][i + t];
      } else {
        assert b[t] == k[x + 16..x + 32][i + t - 16];
      }
    }
  }

  /** The secret's words, read on word boundaries. */
  lemma Bytes0() ensures ReadLE64(ROW0, 0) == 0xbe4ba423396cfeb8 { }

  lemma Bytes8() ensures ReadLE64(ROW0, 8) == 0x1cad21f72c81017c { }

  lemma Secret0(k: Bytes)
    requires |k| == 192 && k[0..16] == ROW0
    ensures ReadLE64(k, 0) == 0xbe4ba423396cfeb8
    ensures ReadLE64(k, 8) == 0x1cad21f72c81017c
  {
    Bytes0();
    ReadRow(k, ROW0, 0, 0);
    Bytes8();
    ReadRow(k, ROW0, 0, 8);
  }

  lemma Bytes16() ensures ReadLE64(ROW1, 0) == 0xdb979083e96dd4de { }

  lemma Bytes24() ensures ReadLE64(ROW1, 8) == 0x1f67b3b7a4a44072 { }

  lemma Secret16(k: Bytes)
    requires |k| == 192 && k[16..32] == ROW1
    ensures ReadLE64(k, 16) == 0xdb979083e96dd4de
    ensures ReadLE64(k, 24) == 0x1f67b3b7a4a44072
  {
    Bytes16();
    ReadRow(k, ROW1, 16, 0);
    Bytes24();
    ReadRow(k, ROW1, 16, 8);
  }

  lemma Bytes32() ensures ReadLE64(ROW2, 0) == 0x78e5c0cc4ee679cb { }

  lemma Bytes40() ensures ReadLE64(ROW2, 8) == 0x2172ffcc7dd05a82 { }

  lemma Secret32(k: Bytes)
    requires |k| == 192 && k[32..48] == ROW2
    ensures ReadLE64(k, 32) == 0x78e5c0cc4ee679cb
    ensures ReadLE64(k, 40) == 0x2172ffcc7dd05a82
  {
    Bytes32();
    ReadRow(k, ROW2, 32, 0);
    Bytes40();
    ReadRow(k, ROW2, 32, 8);
  }

  lemma Bytes48() ensures ReadLE64(ROW3, 0) == 0x8e2443f7744608b8 { }

  lemma Bytes56() ensures ReadLE64(ROW3, 8) == 0x4c263a81e69035e0 { }

  lemma Secret48(k: Bytes)
    requires |k| == 192 && k[48..64] == ROW3
    ensures ReadLE64(k, 48) == 0x8e2443f7744608b8
    ensures ReadLE64(k, 56) == 0x4c263a81e69035e0
  {
    Bytes48();
    ReadRow(k, ROW3, 48, 0);
    Bytes56();
    ReadRow(k, ROW3, 48, 8);
  }

  lemma Bytes64() ensures ReadLE64(ROW4, 0) == 0xcb00c391bb52283c { }

  lemma Bytes72() ensures ReadLE64(ROW4, 8) == 0xa32e531b8b65d088 { }

  lemma Secret64(k: Bytes)
    requires |k| == 192 && k[64..80] == ROW4
    ensures ReadLE64(k, 64) == 0xcb00c391bb52283c
    ensures ReadLE64(k, 72) == 0xa32e531b8b65d088
  {
    Bytes64();
    ReadRow(k, ROW4, 64, 0);
    Bytes72();
    ReadRow(k, ROW4, 64, 8);
  }

  lemma Bytes80() ensures ReadLE64(ROW5, 0) == 0x4ef90da297486471 { }

  lemma Bytes88() ensures ReadLE64(ROW5, 8) == 0xd8acdea946ef1938 { }

  lemma Secret80(k: Bytes)
    requires |k| == 192 && k[80..96] == ROW5
    ensures ReadLE64(k, 80) == 0x4ef90da297486471
    ensures ReadLE64(k, 88) == 0xd8acdea946ef1938
  {
    Bytes80();
    ReadRow(k, ROW5, 80, 0);
    Bytes88();
    ReadRow(k, ROW5, 80, 8);
  }

  lemma Bytes96() ensures ReadLE64(ROW6, 0) == 0x3f349ce33f76faa8 { }

  lemma Bytes104() ensures ReadLE64(ROW6, 8) == 0x1d4f0bc7c7bbdcf9 { }

  lemma Secret96(k: Bytes)
    requires |k| == 192 && k[96..112] == ROW6
    ensures ReadLE64(k, 96) == 0x3f349ce33f76faa8
    ensures ReadLE64(k, 104) == 0x1d4f0bc7c7bbdcf9
  {
    Bytes96();
    ReadRow(k, ROW6, 96, 0);
    Bytes104();
    ReadRow(k, ROW6, 96, 8);
  }

  lemma Bytes112() ensures ReadLE64(ROW7, 0) == 0x3159b4cd4be0518a { }

  lemma Bytes120() ensures ReadLE64(ROW7, 8) == 0x647378d9c97e9fc8 { }

  lemma Secret112(k: Bytes)
    requires |k| == 192 && k[112..128] == ROW7
    ensures ReadLE64(k, 112) == 0x3159b4cd4be0518a
    ensures ReadLE64(k, 120) == 0x647378d9c97e9fc8
  {
    Bytes112();
    ReadRow(k, ROW7, 112, 0);
    Bytes120();
    ReadRow(k, ROW7, 112, 8);
  }

  lemma Bytes128() ensures ReadLE64(ROW8, 0) == 0xc3ebd33483acc5ea { }

  lemma Bytes136() ensures ReadLE64(ROW8, 8) == 0xeb6313faffa081c5 { }

  lemma Secret128(k: Bytes)
    requires |k| == 192 && k[128..144] == ROW8
    ensures ReadLE64(k, 128) == 0xc3ebd33483acc5ea
    ensures ReadLE64(k, 136) == 0xeb6313faffa081c5
  {
    Bytes128();
    ReadRow(k, ROW8, 128, 0);
    Bytes136();
    ReadRow(k, ROW8, 128, 8);
  }

  lemma Bytes144() ensures ReadLE64(ROW9, 0) == 0x49daf0b751dd0d17 { }

  lemma Bytes152() ensures ReadLE64(ROW9, 8) == 0x9e68d429265516d3 { }

  lemma Secret144(k: Bytes)
    requires |k| == 192 && k[144..160] == ROW9
    ensures ReadLE64(k, 144) == 0x49daf0b751dd0d17
    ensures ReadLE64(k, 152) == 0x9e68d429265516d3
  {
    Bytes144();
    ReadRow(k, ROW9, 144, 0);
    Bytes152();
    ReadRow(k, ROW9, 144, 8);
  }

  lemma Bytes160() ensures ReadLE64(ROW10, 0) == 0xfca1477d58be162b { }

  lemma Bytes168() ensures ReadLE64(ROW10, 8) == 0xce31d07ad1b8f88f { }

  lemma Secret160(k: Bytes)
    requires |k| == 192 && k[160..176] == ROW10
    ensures ReadLE64(k, 160) == 0xfca1477d58be162b
    ensures ReadLE64(k, 168) == 0xce31d07ad1b8f88f
  {
    Bytes160();
    ReadRow(k, ROW10, 160, 0);
    Bytes168();
    ReadRow(k, ROW10, 160, 8);
  }

  lemma Bytes176() ensures ReadLE64(ROW11, 0) == 0x280416958f3acb45 { }

  lemma Bytes184() ensures ReadLE64(ROW11, 8) == 0x7e404bbbcafbd7af { }

  lemma Secret176(k: Bytes)
    requires |k| == 192 && k[176..192] == ROW11
    ensures ReadLE64(k, 176) == 0x280416958f3acb45
    ensures ReadLE64(k, 184) == 0x7e404bbbcafbd7af
  {
    Bytes176();
    ReadRow(k, ROW11, 176, 0);
    Bytes184();
    ReadRow(k, ROW11, 176, 8);
  }

  /** And from the other places the code reads. */
  lemma Bytes3() ensures ReadLE64(ROW0, 3) == 0x81017cbe4ba42339 { }

  lemma Bytes11() ensures ReadLE64([0x2c, 0xf7, 0x21, 0xad, 0x1c, 0xde, 0xd4, 0x6d], 0) == 0x6dd4de1cad21f72c { }

  lemma Secret3(k: Bytes)
    requires |k| == 192 && k[0..16] == ROW0 && k[16..32] == ROW1
    ensures ReadLE64(k, 3) == 0x81017cbe4ba42339
    ensures ReadLE64(k, 11) == 0x6dd4de1cad21f72c
  {
    Bytes3();
    ReadRow(k, ROW0, 0, 3);
    assert ROW0[11..] == [0x2c, 0xf7, 0x21, 0xad, 0x1c] && ROW1[..3] == [0xde, 0xd4, 0x6d];
    Bytes11();
    ReadRows(k, ROW0, ROW1, 0, 11, [0x2c, 0xf7, 0x21, 0xad, 0x1c, 0xde, 0xd4, 0x6d]);
  }

  lemma Bytes19() ensures ReadLE64(ROW1, 3) == 0xa44072db979083e9 { }

  lemma Bytes27() ensures ReadLE64([0xa4, 0xb7, 0xb3, 0x67, 0x1f, 0xcb, 0x79, 0xe6], 0) == 0xe679cb1f67b3b7a4 { }

  lemma Secret19(k: Bytes)
    requires |k| == 192 && k[16..32] == ROW1 && k[32..48] == ROW2
    ensures ReadLE64(k, 19) == 0xa44072db979083e9
    ensures ReadLE64(k, 27) == 0xe679cb1f67b3b7a4
  {
    Bytes19();
    ReadRow(k, ROW1, 16, 3);
    assert ROW1[11..] == [0xa4, 0xb7, 0xb3, 0x67, 0x1f] && ROW2[..3] == [0xcb, 0x79, 0xe6];
    Bytes27();
    ReadRows(k, ROW1, ROW2, 16, 11, [0xa4, 0xb7, 0xb3, 0x67, 0x1f, 0xcb, 0x79, 0xe6]);
  }

  lemma Bytes35() ensures ReadLE64(ROW2, 3) == 0xd05a8278e5c0cc4e { }

  lemma Bytes43() ensures ReadLE64([0x7d, 0xcc, 0xff, 0x72, 0x21, 0xb8, 0x08, 0x46], 0) == 0x4608b82172ffcc7d { }

  lemma Secret35(k: Bytes)
    requires |k| == 192 && k[32..48] == ROW2 && k[48..64] == ROW3
    ensures ReadLE64(k, 35) == 0xd05a8278e5c0cc4e
    ensures ReadLE64(k, 43) == 0x4608b82172ffcc7d
  {
    Bytes35();
    ReadRow(k, ROW2, 32, 3);
    assert ROW2[11..] == [0x7d, 0xcc, 0xff, 0x72, 0x21] && ROW3[..3] == [0xb8, 0x08, 0x46];
    Bytes43();
    ReadRows(k, ROW2, ROW3, 32, 11, [0x7d, 0xcc, 0xff, 0x72, 0x21, 0xb8, 0x08, 0x46]);
  }

  lemma Bytes51() ensures ReadLE64(ROW3, 3) == 0x9035e08e2443f774 { }

  lemma Bytes59() ensures ReadLE64([0xe6, 0x81, 0x3a, 0x26, 0x4c, 0x3c, 0x28, 0x52], 0) == 0x52283c4c263a81e6 { }

  lemma Secret51(k: Bytes)
    requires |k| == 192 && k[48..64] == ROW3 && k[64..80] == ROW4
    ensures ReadLE64(k, 51) == 0x9035e08e2443f774
    ensures ReadLE64(k, 59) == 0x52283c4c263a81e6
  {
    Bytes51();
    ReadRow(k, ROW3, 48, 3);
    assert ROW3[11..] == [0xe6, 0x81, 0x3a, 0x26, 0x4c] && ROW4[..3] == [0x3c, 0x28, 0x52];
    Bytes59();
    ReadRows(k, ROW3, ROW4, 48, 11, [0xe6, 0x81, 0x3a, 0x26, 0x4c, 0x3c, 0x28, 0x52]);
  }

  lemma Bytes67() ensures ReadLE64(ROW4, 3) == 0x65d088cb00c391bb { }

  lemma Bytes75() ensures ReadLE64([0x8b, 0x1b, 0x53, 0x2e, 0xa3, 0x71, 0x64, 0x48], 0) == 0x486471a32e531b8b { }

  lemma Secret67(k: Bytes)
    requires |k| == 192 && k[64..80] == ROW4 && k[80..96] == ROW5
    ensures ReadLE64(k, 67) == 0x65d088cb00c391bb
    ensures ReadLE64(k, 75) == 0x486471a32e531b8b
  {
    Bytes67();
    ReadRow(k, ROW4, 64, 3);
    assert ROW4[11..] == [0x8b, 0x1b, 0x53, 0x2e, 0xa3] && ROW5[..3] == [0x71, 0x64, 0x48];
    Bytes75();
    ReadRows(k, ROW4, ROW5, 64, 11, [0x8b, 0x1b, 0x53, 0x2e, 0xa3, 0x71, 0x64, 0x48]);
  }

  lemma Bytes83() ensures ReadLE64(ROW5, 3) == 0xef19384ef90da297 { }

  lemma Bytes91() ensures ReadLE64([0x46, 0xa9, 0xde, 0xac, 0xd8, 0xa8, 0xfa, 0x76], 0) == 0x76faa8d8acdea946 { }

  lemma Secret83(k: Bytes)
    requires |k| == 192 && k[80..96] == ROW5 && k[96..112] == ROW6
    ensures ReadLE64(k, 83) == 0xef19384ef90da297
    ensures ReadLE64(k, 91) == 0x76faa8d8acdea946
  {
    Bytes83();
    ReadRow(k, ROW5, 80, 3);
    assert ROW5[11..] == [0x46, 0xa9, 0xde, 0xac, 0xd8] && ROW6[..3] == [0xa8, 0xfa, 0x76];
    Bytes91();
    ReadRows(k, ROW5, ROW6, 80, 11, [0x46, 0xa9, 0xde, 0xac, 0xd8, 0xa8, 0xfa, 0x76]);
  }

  lemma Bytes99() ensures ReadLE64(ROW6, 3) == 0xbbdcf93f349ce33f { }

  lemma Bytes107() ensures ReadLE64([0xc7, 0xc7, 0x0b, 0x4f, 0x1d, 0x8a, 0x51, 0xe0], 0) == 0xe0518a1d4f0bc7c7 { }

  lemma Secret99(k: Bytes)
    requires |k| == 192 && k[96..112] == ROW6 && k[112..128] == ROW7
    ensures ReadLE64(k, 99) == 0xbbdcf93f349ce33f
    ensures ReadLE64(k, 107) == 0xe0518a1d4f0bc7c7
  {
    Bytes99();
    ReadRow(k, ROW6, 96, 3);
    assert ROW6[11..] == [0xc7, 0xc7, 0x0b, 0x4f, 0x1d] && ROW7[..3] == [0x8a, 0x51, 0xe0];
    Bytes107();
    ReadRows(k, ROW6, ROW7, 96, 11, [0xc7, 0xc7, 0x0b, 0x4f, 0x1d, 0x8a, 0x51, 0xe0]);
  }

  lemma Bytes115() ensures ReadLE64(ROW7, 3) == 0x7e9fc83159b4cd4b { }

  lemma Bytes123() ensures ReadLE64([0xc9, 0xd9, 0x78, 0x73, 0x64, 0xea, 0xc5, 0xac], 0) == 0xacc5ea647378d9c9 { }

  lemma Secret115(k: Bytes)
    requires |k| == 192 && k[112..128] == ROW7 && k[128..144] == ROW8
    ensures ReadLE64(k, 115) == 0x7e9fc83159b4cd4b
    ensures ReadLE64(k, 123) == 0xacc5ea647378d9c9
  {
    Bytes115();
    ReadRow(k, ROW7, 112, 3);
    assert ROW7[11..] == [0xc9, 0xd9, 0x78, 0x73, 0x64] && ROW8[..3] == [0xea, 0xc5, 0xac];
    Bytes123();
    ReadRows(k, ROW7, ROW8, 112, 11, [0xc9, 0xd9, 0x78, 0x73, 0x64, 0xea, 0xc5, 0xac]);
  }

  lemma Bytes13() ensures ReadLE64([0x21, 0xad, 0x1c, 0xde, 0xd4, 0x6d, 0xe9, 0x83], 0) == 0x83e96dd4de1cad21 { }

  lemma Secret13(k: Bytes)
    requires |k| == 192 && k[0..16] == ROW0 && k[16..32] == ROW1
    ensures ReadLE64(k, 13) == 0x83e96dd4de1cad21
  {
    assert ROW0[13..] == [0x21, 0xad, 0x1c] && ROW1[..5] == [0xde, 0xd4, 0x6d, 0xe9, 0x83];
    Bytes13();
    ReadRows(k, ROW0, ROW1, 0, 13, [0x21, 0xad, 0x1c, 0xde, 0xd4, 0x6d, 0xe9, 0x83]);
  }

  lemma Bytes119() ensures ReadLE64(ROW7, 7) == 0x7378d9c97e9fc831 { }

  lemma Bytes127() ensures ReadLE64([0x64, 0xea, 0xc5, 0xac, 0x83, 0x34, 0xd3, 0xeb], 0) == 0xebd33483acc5ea64 { }

  lemma Secret119(k: Bytes)
    requires |k| == 192 && k[112..128] == ROW7 && k[128..144] == ROW8
    ensures ReadLE64(k, 119) == 0x7378d9c97e9fc831
    ensures ReadLE64(k, 127) == 0xebd33483acc5ea64
  {
    Bytes119();
    ReadRow(k, ROW7, 112, 7);
    assert ROW7[15..] == [0x64] && ROW8[..7] == [0xea, 0xc5, 0xac, 0x83, 0x34, 0xd3, 0xeb];
    Bytes127();
    ReadRows(k, ROW7, ROW8, 112, 15, [0x64, 0xea, 0xc5, 0xac, 0x83, 0x34, 0xd3, 0xeb]);
  }

  lemma Bytes121() ensures ReadLE64([0x9f, 0x7e, 0xc9, 0xd9, 0x78, 0x73, 0x64, 0xea], 0) == 0xea647378d9c97e9f { }

  lemma Bytes129() ensures ReadLE64(ROW8, 1) == 0xc5c3ebd33483acc5 { }

  lemma Secret121(k: Bytes)
    requires |k| == 192 && k[112..128] == ROW7 && k[128..144] == ROW8
    ensures ReadLE64(k, 121) == 0xea647378d9c97e9f
    ensures ReadLE64(k, 129) == 0xc5c3ebd33483acc5
  {
    assert ROW7[9..] == [0x9f, 0x7e, 0xc9, 0xd9, 0x78, 0x73, 0x64] && ROW8[..1] == [0xea];
    Bytes121();
    ReadRows(k, ROW7, ROW8, 112, 9, [0x9f, 0x7e, 0xc9, 0xd9, 0x78, 0x73, 0x64, 0xea]);
    Bytes129();
    ReadRow(k, ROW8, 128, 1);
  }

  lemma Bytes137() ensures ReadLE64([0x81, 0xa0, 0xff, 0xfa, 0x13, 0x63, 0xeb, 0x17], 0) == 0x17eb6313faffa081 { }

  lemma Bytes145() ensures ReadLE64(ROW9, 1) == 0xd349daf0b751dd0d { }

  lemma Secret137(k: Bytes)
    requires |k| == 192 && k[128..144] == ROW8 && k[144..160] == ROW9
    ensures ReadLE64(k, 137) == 0x17eb6313faffa081
    ensures ReadLE64(k, 145) == 0xd349daf0b751dd0d
  {
    assert ROW8[9..] == [0x81, 0xa0, 0xff, 0xfa, 0x13, 0x63, 0xeb] && ROW9[..1] == [0x17];
    Bytes137();
    ReadRows(k, ROW8, ROW9, 128, 9, [0x81, 0xa0, 0xff, 0xfa, 0x13, 0x63, 0xeb, 0x17]);
    Bytes145();
    ReadRow(k, ROW9, 144, 1);
  }

  lemma Bytes153() ensures ReadLE64([0x16, 0x55, 0x26, 0x29, 0xd4, 0x68, 0x9e, 0x2b], 0) == 0x2b9e68d429265516 { }

  lemma Bytes161() ensures ReadLE64(ROW10, 1) == 0x8ffca1477d58be16 { }

  lemma Secret153(k: Bytes)
    requires |k| == 192 && k[144..160] == ROW9 && k[160..176] == ROW10
    ensures ReadLE64(k, 153) == 0x2b9e68d429265516
    ensures ReadLE64(k, 161) == 0x8ffca1477d58be16
  {
    assert ROW9[9..] == [0x16, 0x55, 0x26, 0x29, 0xd4, 0x68, 0x9e] && ROW10[..1] == [0x2b];
    Bytes153();
    ReadRows(k, ROW9, ROW10, 144, 9, [0x16, 0x55, 0x26, 0x29, 0xd4, 0x68, 0x9e, 0x2b]);
    Bytes161();
    ReadRow(k, ROW10, 160, 1);
  }

  lemma Bytes169() ensures ReadLE64([0xf8, 0xb8, 0xd1, 0x7a, 0xd0, 0x31, 0xce, 0x45], 0) == 0x45ce31d07ad1b8f8 { }

  lemma Bytes177() ensures ReadLE64(ROW11, 1) == 0xaf280416958f3acb { }

  lemma Secret169(k: Bytes)
    requires |k| == 192 && k[160..176] == ROW10 && k[176..192] == ROW11
    ensures ReadLE64(k, 169) == 0x45ce31d07ad1b8f8
    ensures ReadLE64(k, 177) == 0xaf280416958f3acb
  {
    assert ROW10[9..] == [0xf8, 0xb8, 0xd1, 0x7a, 0xd0, 0x31, 0xce] && ROW11[..1] == [0x45];
    Bytes169();
    ReadRows(k, ROW10, ROW11, 160, 9, [0xf8, 0xb8, 0xd1, 0x7a, 0xd0, 0x31, 0xce, 0x45]);
    Bytes177();
    ReadRow(k, ROW11, 176, 1);
  }

  /** The rows are where they belong. */
  ghost predicate IsSecret(k: Bytes) {
    && |k| == 192
    && k[0..16] == ROW0
    && k[16..32] == ROW1
    && k[32..48] == ROW2
    && k[48..64] == ROW3
    && k[64..80] == ROW4
    && k[80..96] == ROW5
    && k[96..112] == ROW6
    && k[112..128] == ROW7
    && k[128..144] == ROW8
    && k[144..160] == ROW9
    && k[160..176] == ROW10
    && k[176..192] == ROW11
  }

  lemma SecretIs()
    ensures IsSecret(K_SECRET)
  {
    Row0();
    Row1();
    Row2();
    Row3();
    Row4();
    Row5();
    Row6();
    Row7();
    Row8();
    Row9();
    Row10();
    Row11();
  }
}
