/** Known answers of XXH3 for inputs of at most 240 bytes. */
module Xxh3ShortAnswers {
  import opened Machine
  import opened Stripes
  import opened Xxh64
  import opened Xxh3Kernel
  import opened Xxh3Reads
  import Multiply

  // ----- foldings of known words

  lemma MultIs(x: nat, y: nat, low: nat, high: nat)
    requires x <= SIZE_MAX && y <= SIZE_MAX && low <= SIZE_MAX && x * y == low + high * 0x1_0000_0000_0000_0000
    ensures Multiply.Mult64to128(x, y) == Multiply.Product(low, high)
  {
    var p := Multiply.Mult64to128(x, y);
    Multiply.Mult64to128Exact(x, y);
    HalvesUnique(p.low, p.high, low, high);
  }

  lemma HalvesUnique(low: nat, high: nat, l: nat, h: nat)
    requires low <= SIZE_MAX && l <= SIZE_MAX
    requires low + high * 0x1_0000_0000_0000_0000 == l + h * 0x1_0000_0000_0000_0000
    ensures low == l && high == h
  {
  }

  /** The halves of the exact product, folded. */
  lemma FoldIs(x: bv64, y: bv64, xn: nat, yn: nat, low: SizeT, high: SizeT)
    requires x as nat == xn && y as nat == yn && xn * yn == low + high * 0x1_0000_0000_0000_0000
    ensures Fold64(x, y) == XorHalves(low, high)
  {
    MultIs(xn, yn, low, high);
  }

  lemma Folding0()
    ensures Fold64(0xbe4ba423396cfeb8, 0x1cad21f72c81017c) == 0xe66d33d47acc9175
  {
    FoldIs(0xbe4ba423396cfeb8, 0x1cad21f72c81017c, 0xbe4ba423396cfeb8, 0x1cad21f72c81017c, 0xf33dcb8538821920, 0x1550f851424e8855);
  }

  lemma Folding1()
    ensures Fold64(0xdb979083e96dd4de, 0x1f67b3b7a4a44072) == 0xeea7ee2660adf5b3
  {
    FoldIs(0xdb979083e96dd4de, 0x1f67b3b7a4a44072, 0xdb979083e96dd4de, 0x1f67b3b7a4a44072, 0xf457a085fe584adc, 0x1af04ea39ef5bf6f);
  }

  lemma Folding2()
    ensures Fold64(0x78e5c0cc4ee679cb, 0x2172ffcc7dd05a82) == 0x62914e0bb579a55c
  {
    FoldIs(0x78e5c0cc4ee679cb, 0x2172ffcc7dd05a82, 0x78e5c0cc4ee679cb, 0x2172ffcc7dd05a82, 0x6d5aa2fc2bcb3716, 0x0fcbecf79eb2924a);
  }

  lemma Folding3()
    ensures Fold64(0x8e2443f7744608b8, 0x4c263a81e69035e0) == 0xfa4de5819064bd65
  {
    FoldIs(0x8e2443f7744608b8, 0x4c263a81e69035e0, 0x8e2443f7744608b8, 0x4c263a81e69035e0, 0xd00a1b8a7495b900, 0x2a47fe0be4f10465);
  }

  lemma Folding4()
    ensures Fold64(0xcb00c391bb52283c, 0xa32e531b8b65d088) == 0x1566bba4bd79e0b5
  {
    FoldIs(0xcb00c391bb52283c, 0xa32e531b8b65d088, 0xcb00c391bb52283c, 0xa32e531b8b65d088, 0x94008334b8021fe0, 0x81663890057bff55);
  }

  lemma Folding5()
    ensures Fold64(0x4ef90da297486471, 0xd8acdea946ef1938) == 0x001e477a5e259557
  {
    FoldIs(0x4ef90da297486471, 0xd8acdea946ef1938, 0x4ef90da297486471, 0xd8acdea946ef1938, 0x42c930fcd52401b8, 0x42d777868b0194ef);
  }

  lemma Folding6()
    ensures Fold64(0x3f349ce33f76faa8, 0x1d4f0bc7c7bbdcf9) == 0xc252b506149f3d06
  {
    FoldIs(0x3f349ce33f76faa8, 0x1d4f0bc7c7bbdcf9, 0x3f349ce33f76faa8, 0x1d4f0bc7c7bbdcf9, 0xc56eccecaada2d68, 0x073c79eabe45106e);
  }

  lemma Folding7()
    ensures Fold64(0x3159b4cd4be0518a, 0x647378d9c97e9fc8) == 0x600645d367af62ce
  {
    FoldIs(0x3159b4cd4be0518a, 0x647378d9c97e9fc8, 0x3159b4cd4be0518a, 0x647378d9c97e9fc8, 0x735b08eb15d069d0, 0x135d4d38727f0b1e);
  }

  lemma Folding8()
    ensures Fold64(0xbbdcf93f349ce33f, 0xe0518a1d4f0bc7c7) == 0x30337355c4208ffd
  {
    FoldIs(0xbbdcf93f349ce33f, 0xe0518a1d4f0bc7c7, 0xbbdcf93f349ce33f, 0xe0518a1d4f0bc7c7, 0x94ae43090f4f9ef9, 0xa49d305ccb6f1104);
  }

  lemma Folding9()
    ensures Fold64(0xef19384ef90da297, 0x76faa8d8acdea946) == 0x0d934e32c2999a68
  {
    FoldIs(0xef19384ef90da297, 0x76faa8d8acdea946, 0xef19384ef90da297, 0x76faa8d8acdea946, 0x628cf27a8d02244a, 0x6f1fbc484f9bbe22);
  }

  lemma Folding10()
    ensures Fold64(0x65d088cb00c391bb, 0x486471a32e531b8b) == 0x734bfed69e375197
  {
    FoldIs(0x65d088cb00c391bb, 0x486471a32e531b8b, 0x65d088cb00c391bb, 0x486471a32e531b8b, 0x6f8167f6e42fd989, 0x1cca99207a18881e);
  }

  lemma Folding11()
    ensures Fold64(0x9035e08e2443f774, 0x52283c4c263a81e6) == 0x1a35b8dc3ef59973
  {
    FoldIs(0x9035e08e2443f774, 0x52283c4c263a81e6, 0x9035e08e2443f774, 0x52283c4c263a81e6, 0x3472548c1d09c638, 0x2e47ec5023fc5f4b);
  }

  lemma Folding12()
    ensures Fold64(0xd05a8278e5c0cc4e, 0x4608b82172ffcc7d) == 0xa8f6f06f6607f15d
  {
    FoldIs(0xd05a8278e5c0cc4e, 0x4608b82172ffcc7d, 0xd05a8278e5c0cc4e, 0x4608b82172ffcc7d, 0x900928320fa3ea16, 0x38ffd85d69a41b4b);
  }

  lemma Folding13()
    ensures Fold64(0xa44072db979083e9, 0xe679cb1f67b3b7a4) == 0x04c562a1b4aad0f6
  {
    FoldIs(0xa44072db979083e9, 0xe679cb1f67b3b7a4, 0xa44072db979083e9, 0xe679cb1f67b3b7a4, 0x9725695b61cb1044, 0x93e00bfad561c0b2);
  }

  lemma Folding14()
    ensures Fold64(0x81017cbe4ba42339, 0x6dd4de1cad21f72c) == 0x62ad18a47cea5cad
  {
    FoldIs(0x81017cbe4ba42339, 0x6dd4de1cad21f72c, 0x81017cbe4ba42339, 0x6dd4de1cad21f72c, 0x55f5ffe26d8b0ccc, 0x3758e74611615061);
  }

  lemma Folding15()
    ensures Fold64(0x6782737bea4239b9, 0xaf56bc3b0996523a) == 0xfbd5a574b067a6e0
  {
    FoldIs(0x6782737bea4239b9, 0xaf56bc3b0996523a, 0x6782737bea4239b9, 0xaf56bc3b0996523a, 0xbd309b949ce455ea, 0x46e53ee02c83f30a);
  }

  lemma Folding16()
    ensures Fold64(0x7378d9c97e9fc831, 0xebd33483acc5ea64) == 0xad6644cb14491f73
  {
    FoldIs(0x7378d9c97e9fc831, 0xebd33483acc5ea64, 0x7378d9c97e9fc831, 0xebd33483acc5ea64, 0xc73970fc7d1bfd24, 0x6a5f34376952e257);
  }

  lemma Folding17()
    ensures Fold64(0x402e3c2393d9c839, 0xa5e238c64ff8e231) == 0xfd012ce0c7037ed0
  {
    FoldIs(0x402e3c2393d9c839, 0xa5e238c64ff8e231, 0x402e3c2393d9c839, 0xa5e238c64ff8e231, 0xd497af2f1da9a4e9, 0x299683cfdaaada39);
  }

  lemma Folding18()
    ensures Fold64(0x4896bef824b9cee1, 0xe54342dfd7c6ea2d) == 0xb7e6e49a0d4e203d
  {
    FoldIs(0x4896bef824b9cee1, 0xe54342dfd7c6ea2d, 0x4896bef824b9cee1, 0xe54342dfd7c6ea2d, 0xf6e70fa444c9078d, 0x4101eb3e498727b0);
  }

  lemma Folding19()
    ensures Fold64(0x087a89ca7076042a, 0xfbde46d6b902f63e) == 0x377089969ee7333b
  {
    FoldIs(0x087a89ca7076042a, 0xfbde46d6b902f63e, 0x087a89ca7076042a, 0xfbde46d6b902f63e, 0x3f27082306e95e2c, 0x085781b5980e6d17);
  }

  lemma Folding20()
    ensures Fold64(0x136f214bc54729ed, 0xb0a1cb17a71fb7aa) == 0x4940e6ab7db7ba93
  {
    FoldIs(0x136f214bc54729ed, 0xb0a1cb17a71fb7aa, 0x136f214bc54729ed, 0xb0a1cb17a71fb7aa, 0x442849998eed4262, 0x0d68af32f35af8f1);
  }

  lemma Folding21()
    ensures Fold64(0x484ac28f3ceda84b, 0x8ad29a9d713c0d43) == 0x7c5f714eaf6753f0
  {
    FoldIs(0x484ac28f3ceda84b, 0x8ad29a9d713c0d43, 0x484ac28f3ceda84b, 0x8ad29a9d713c0d43, 0x5b6cb4909052daa1, 0x2733c5de3f358951);
  }

  lemma Folding22()
    ensures Fold64(0xa3c98af68a7c4a8f, 0xe2d9ba5e87ec5793) == 0xd36928c8bca2ab73
  {
    FoldIs(0xa3c98af68a7c4a8f, 0xe2d9ba5e87ec5793, 0xa3c98af68a7c4a8f, 0xe2d9ba5e87ec5793, 0x424a1109e789691d, 0x912339c15b2bc26e);
  }

  lemma Folding23()
    ensures Fold64(0x914a2c1523f2f0d5, 0xb4175187fa823a50) == 0x1140144fe3ccd7ee
  {
    FoldIs(0x914a2c1523f2f0d5, 0xb4175187fa823a50, 0x914a2c1523f2f0d5, 0xb4175187fa823a50, 0x777576a194a58490, 0x663562ee7769537e);
  }

  lemma Folding24()
    ensures Fold64(0x0491edef6a9e342b, 0x6515ac33c8f705b3) == 0x71df3e99631987bc
  {
    FoldIs(0x0491edef6a9e342b, 0x6515ac33c8f705b3, 0x0491edef6a9e342b, 0x6515ac33c8f705b3, 0x7012cb7391205111, 0x01cdf5eaf239d6ad);
  }

  lemma Folding25()
    ensures Fold64(0x66a8b982cbfddf19, 0xf9d5faca505e0c2e) == 0x4fe8ccde3185770a
  {
    FoldIs(0x66a8b982cbfddf19, 0xf9d5faca505e0c2e, 0x66a8b982cbfddf19, 0xf9d5faca505e0c2e, 0x2bc727ba4941427e, 0x642feb6478c43574);
  }

  lemma FoldingB26()
    ensures Fold64(0x366fc5b1a9021eda, 0x0d1fc5ed83a2874d) == 0x3928ef2a7d6e2c97
  {
    FoldIs(0x366fc5b1a9021eda, 0x0d1fc5ed83a2874d, 0x366fc5b1a9021eda, 0x0d1fc5ed83a2874d, 0x3be2818307dc3d92, 0x02ca6ea97ab21105);
  }

  lemma FoldingB27()
    ensures Fold64(0x607d87291ca1e6a5, 0x66ee0341dbf6436f) == 0x32c959d1c7e01150
  {
    FoldIs(0x607d87291ca1e6a5, 0x66ee0341dbf6436f, 0x607d87291ca1e6a5, 0x66ee0341dbf6436f, 0x1402e019931e308b, 0x26cbb9c854fe21db);
  }

  lemma FoldingB28()
    ensures Fold64(0xca166e58ca582241, 0x4a0fd4c89232618a) == 0x47da7b3f312eba45
  {
    FoldIs(0xca166e58ca582241, 0x4a0fd4c89232618a, 0xca166e58ca582241, 0x4a0fd4c89232618a, 0x7dac80103b2f180a, 0x3a76fb2f0a01a24f);
  }

  lemma FoldingB29()
    ensures Fold64(0x359c59fd5bdb37c6, 0x0541f814fe75b403) == 0xa56e04e5808b05aa
  {
    FoldIs(0x359c59fd5bdb37c6, 0x0541f814fe75b403, 0x359c59fd5bdb37c6, 0x0541f814fe75b403, 0xa477da8d2846df52, 0x0119de68a8cddaf8);
  }

  lemma FoldingB30()
    ensures Fold64(0xc0231d5302d919cc, 0x4e4e26db0a3043e6) == 0x015e3545f93e946a
  {
    FoldIs(0xc0231d5302d919cc, 0x4e4e26db0a3043e6, 0xc0231d5302d919cc, 0x4e4e26db0a3043e6, 0x3b9b6f8e2f0d9148, 0x3ac55acbd6330522);
  }

  lemma FoldingB31()
    ensures Fold64(0xabe256a718b283df, 0x05d02c1cc03e10d1) == 0xa976ff485e04b433
  {
    FoldIs(0xabe256a718b283df, 0x05d02c1cc03e10d1, 0xabe256a718b283df, 0x05d02c1cc03e10d1, 0xaa91ce7d81fd990f, 0x03e73135dff92d3c);
  }

  lemma FoldingB32()
    ensures Fold64(0xf45be5952e2f6c03, 0x864794dc76eb2188) == 0x4e816fda7d1c3c5f
  {
    FoldIs(0xf45be5952e2f6c03, 0x864794dc76eb2188, 0xf45be5952e2f6c03, 0x864794dc76eb2188, 0xcead021a2edec498, 0x802c6dc053c2f8c7);
  }

  lemma FoldingB33()
    ensures Fold64(0xfad34081fb2b137b, 0x04414a65770712c0) == 0x9608e361fe80db02
  {
    FoldIs(0xfad34081fb2b137b, 0x04414a65770712c0, 0xfad34081fb2b137b, 0x04414a65770712c0, 0x9223a6e81d0a4240, 0x042b4589e38a9942);
  }

  lemma FoldingB34()
    ensures Fold64(0x1914ccda5caf053a, 0x92f62f5d5db62a8c) == 0xf14e1b7075c79559
  {
    FoldIs(0x1914ccda5caf053a, 0x92f62f5d5db62a8c, 0x1914ccda5caf053a, 0x92f62f5d5db62a8c, 0xff2be0052fce5fb8, 0x0e65fb755a09cae1);
  }

  /** The foldings the answers use. */
  ghost predicate Known(fold: Folding) {
    && fold(0xbe4ba423396cfeb8, 0x1cad21f72c81017c) == 0xe66d33d47acc9175
    && fold(0xdb979083e96dd4de, 0x1f67b3b7a4a44072) == 0xeea7ee2660adf5b3
    && fold(0x78e5c0cc4ee679cb, 0x2172ffcc7dd05a82) == 0x62914e0bb579a55c
    && fold(0x8e2443f7744608b8, 0x4c263a81e69035e0) == 0xfa4de5819064bd65
    && fold(0xcb00c391bb52283c, 0xa32e531b8b65d088) == 0x1566bba4bd79e0b5
    && fold(0x4ef90da297486471, 0xd8acdea946ef1938) == 0x001e477a5e259557
    && fold(0x3f349ce33f76faa8, 0x1d4f0bc7c7bbdcf9) == 0xc252b506149f3d06
    && fold(0x3159b4cd4be0518a, 0x647378d9c97e9fc8) == 0x600645d367af62ce
    && fold(0xbbdcf93f349ce33f, 0xe0518a1d4f0bc7c7) == 0x30337355c4208ffd
    && fold(0xef19384ef90da297, 0x76faa8d8acdea946) == 0x0d934e32c2999a68
    && fold(0x65d088cb00c391bb, 0x486471a32e531b8b) == 0x734bfed69e375197
    && fold(0x9035e08e2443f774, 0x52283c4c263a81e6) == 0x1a35b8dc3ef59973
    && fold(0xd05a8278e5c0cc4e, 0x4608b82172ffcc7d) == 0xa8f6f06f6607f15d
    && fold(0xa44072db979083e9, 0xe679cb1f67b3b7a4) == 0x04c562a1b4aad0f6
    && fold(0x81017cbe4ba42339, 0x6dd4de1cad21f72c) == 0x62ad18a47cea5cad
    && fold(0x6782737bea4239b9, 0xaf56bc3b0996523a) == 0xfbd5a574b067a6e0
    && fold(0x7378d9c97e9fc831, 0xebd33483acc5ea64) == 0xad6644cb14491f73
    && fold(0x402e3c2393d9c839, 0xa5e238c64ff8e231) == 0xfd012ce0c7037ed0
    && fold(0x4896bef824b9cee1, 0xe54342dfd7c6ea2d) == 0xb7e6e49a0d4e203d
    && fold(0x087a89ca7076042a, 0xfbde46d6b902f63e) == 0x377089969ee7333b
    && fold(0x136f214bc54729ed, 0xb0a1cb17a71fb7aa) == 0x4940e6ab7db7ba93
    && fold(0x484ac28f3ceda84b, 0x8ad29a9d713c0d43) == 0x7c5f714eaf6753f0
    && fold(0xa3c98af68a7c4a8f, 0xe2d9ba5e87ec5793) == 0xd36928c8bca2ab73
    && fold(0x914a2c1523f2f0d5, 0xb4175187fa823a50) == 0x1140144fe3ccd7ee
    && fold(0x0491edef6a9e342b, 0x6515ac33c8f705b3) == 0x71df3e99631987bc
    && fold(0x66a8b982cbfddf19, 0xf9d5faca505e0c2e) == 0x4fe8ccde3185770a
    && fold(0x366fc5b1a9021eda, 0x0d1fc5ed83a2874d) == 0x3928ef2a7d6e2c97
    && fold(0x607d87291ca1e6a5, 0x66ee0341dbf6436f) == 0x32c959d1c7e01150
    && fold(0xca166e58ca582241, 0x4a0fd4c89232618a) == 0x47da7b3f312eba45
    && fold(0x359c59fd5bdb37c6, 0x0541f814fe75b403) == 0xa56e04e5808b05aa
    && fold(0xc0231d5302d919cc, 0x4e4e26db0a3043e6) == 0x015e3545f93e946a
    && fold(0xabe256a718b283df, 0x05d02c1cc03e10d1) == 0xa976ff485e04b433
    && fold(0xf45be5952e2f6c03, 0x864794dc76eb2188) == 0x4e816fda7d1c3c5f
    && fold(0xfad34081fb2b137b, 0x04414a65770712c0) == 0x9608e361fe80db02
    && fold(0x1914ccda5caf053a, 0x92f62f5d5db62a8c) == 0xf14e1b7075c79559
  }

  lemma FoldKnown()
    ensures Known(Fold64)
  {
    Folding0();
    Folding1();
    Folding2();
    Folding3();
    Folding4();
    Folding5();
    Folding6();
    Folding7();
    Folding8();
    Folding9();
    Folding10();
    Folding11();
    Folding12();
    Folding13();
    Folding14();
    Folding15();
    Folding16();
    Folding17();
    Folding18();
    Folding19();
    Folding20();
    Folding21();
    Folding22();
    Folding23();
    Folding24();
    Folding25();
    FoldingB26();
    FoldingB27();
    FoldingB28();
    FoldingB29();
    FoldingB30();
    FoldingB31();
    FoldingB32();
    FoldingB33();
    FoldingB34();
  }

  // ----- inputs of zeros

  predicate AllZero(data: Bytes) {
    forall j :: 0 <= j < |data| ==> data[j] == 0
  }

  lemma ZeroMix(fold: Folding, data: Bytes, i: nat, k: Bytes, off: nat, x: bv64, y: bv64)
    requires AllZero(data) && i + 16 <= |data| && off + 16 <= |k| && ReadLE64(k, off) == x && ReadLE64(k, off + 8) == y
    ensures Mix16B(fold, data, i, k, off, 0) == fold(x, y)
  {
    ZeroRead(data, i, 8);
    ZeroRead(data, i + 8, 8);
    assert 0 ^ (x + 0) == x && 0 ^ (y - 0) == y;
  }

  lemma NoRounds(fold: Folding, data: Bytes, i: nat, k: Bytes, off: nat, seed: bv64)
    requires i <= |data| && off <= |k|
    ensures MixRounds(fold, data, i, k, off, seed, 0) == 0
  {
  }

  /** The mixes at both ends. */
  lemma ZeroEnds0(fold: Folding, data: Bytes, k: Bytes)
    requires AllZero(data) && |data| >= 16 && IsSecret(k) && Known(fold)
    ensures MixEnds(fold, data, 0, k, 0) == 0xd51521fadb7a8728
  {
    Secret0(k);
    Secret16(k);
    ZeroMix(fold, data, 0, k, 0, 0xbe4ba423396cfeb8, 0x1cad21f72c81017c);
    ZeroMix(fold, data, |data| - 16, k, 16, 0xdb979083e96dd4de, 0x1f67b3b7a4a44072);
  }

  lemma ZeroEnds1(fold: Folding, data: Bytes, k: Bytes)
    requires AllZero(data) && |data| >= 32 && IsSecret(k) && Known(fold)
    ensures MixEnds(fold, data, 1, k, 0) == 0x5cdf338d45de62c1
  {
    Secret32(k);
    Secret48(k);
    ZeroMix(fold, data, 16, k, 32, 0x78e5c0cc4ee679cb, 0x2172ffcc7dd05a82);
    ZeroMix(fold, data, |data| - 32, k, 48, 0x8e2443f7744608b8, 0x4c263a81e69035e0);
  }

  lemma ZeroEnds2(fold: Folding, data: Bytes, k: Bytes)
    requires AllZero(data) && |data| >= 48 && IsSecret(k) && Known(fold)
    ensures MixEnds(fold, data, 2, k, 0) == 0x1585031f1b9f760c
  {
    Secret64(k);
    Secret80(k);
    ZeroMix(fold, data, 32, k, 64, 0xcb00c391bb52283c, 0xa32e531b8b65d088);
    ZeroMix(fold, data, |data| - 48, k, 80, 0x4ef90da297486471, 0xd8acdea946ef1938);
  }

  lemma ZeroEnds3(fold: Folding, data: Bytes, k: Bytes)
    requires AllZero(data) && |data| >= 64 && IsSecret(k) && Known(fold)
    ensures MixEnds(fold, data, 3, k, 0) == 0x2258fad97c4e9fd4
  {
    Secret96(k);
    Secret112(k);
    ZeroMix(fold, data, 48, k, 96, 0x3f349ce33f76faa8, 0x1d4f0bc7c7bbdcf9);
    ZeroMix(fold, data, |data| - 64, k, 112, 0x3159b4cd4be0518a, 0x647378d9c97e9fc8);
  }

  /** The rounds over the first 128 bytes, and those over the rest. */
  lemma ZeroFirst1(fold: Folding, data: Bytes, k: Bytes)
    requires AllZero(data) && |data| >= 128 && IsSecret(k) && Known(fold)
    ensures MixRounds(fold, data, 112, k, 112, 0, 1) == 0x600645d367af62ce
  {
    NoRounds(fold, data, 128, k, 128, 0);
    Secret112(k);
    ZeroMix(fold, data, 112, k, 112, 0x3159b4cd4be0518a, 0x647378d9c97e9fc8);
  }

  lemma ZeroFirst2(fold: Folding, data: Bytes, k: Bytes)
    requires AllZero(data) && |data| >= 128 && IsSecret(k) && Known(fold)
    ensures MixRounds(fold, data, 96, k, 96, 0, 2) == 0x2258fad97c4e9fd4
  {
    ZeroFirst1(fold, data, k);
    Secret96(k);
    ZeroMix(fold, data, 96, k, 96, 0x3f349ce33f76faa8, 0x1d4f0bc7c7bbdcf9);
  }

  lemma ZeroFirst3(fold: Folding, data: Bytes, k: Bytes)
    requires AllZero(data) && |data| >= 128 && IsSecret(k) && Known(fold)
    ensures MixRounds(fold, data, 80, k, 80, 0, 3) == 0x22774253da74352b
  {
    ZeroFirst2(fold, data, k);
    Secret80(k);
    ZeroMix(fold, data, 80, k, 80, 0x4ef90da297486471, 0xd8acdea946ef1938);
  }

  lemma ZeroFirst4(fold: Folding, data: Bytes, k: Bytes)
    requires AllZero(data) && |data| >= 128 && IsSecret(k) && Known(fold)
    ensures MixRounds(fold, data, 64, k, 64, 0, 4) == 0x37ddfdf897ee15e0
  {
    ZeroFirst3(fold, data, k);
    Secret64(k);
    ZeroMix(fold, data, 64, k, 64, 0xcb00c391bb52283c, 0xa32e531b8b65d088);
  }

  lemma ZeroFirst5(fold: Folding, data: Bytes, k: Bytes)
    requires AllZero(data) && |data| >= 128 && IsSecret(k) && Known(fold)
    ensures MixRounds(fold, data, 48, k, 48, 0, 5) == 0x322be37a2852d345
  {
    ZeroFirst4(fold, data, k);
    Secret48(k);
    ZeroMix(fold, data, 48, k, 48, 0x8e2443f7744608b8, 0x4c263a81e69035e0);
  }

  lemma ZeroFirst6(fold: Folding, data: Bytes, k: Bytes)
    requires AllZero(data) && |data| >= 128 && IsSecret(k) && Known(fold)
    ensures MixRounds(fold, data, 32, k, 32, 0, 6) == 0x94bd3185ddcc78a1
  {
    ZeroFirst5(fold, data, k);
    Secret32(k);
    ZeroMix(fold, data, 32, k, 32, 0x78e5c0cc4ee679cb, 0x2172ffcc7dd05a82);
  }

  lemma ZeroFirst7(fold: Folding, data: Bytes, k: Bytes)
    requires AllZero(data) && |data| >= 128 && IsSecret(k) && Known(fold)
    ensures MixRounds(fold, data, 16, k, 16, 0, 7) == 0x83651fac3e7a6e54
  {
    ZeroFirst6(fold, data, k);
    Secret16(k);
    ZeroMix(fold, data, 16, k, 16, 0xdb979083e96dd4de, 0x1f67b3b7a4a44072);
  }

  lemma ZeroFirst8(fold: Folding, data: Bytes, k: Bytes)
    requires AllZero(data) && |data| >= 128 && IsSecret(k) && Known(fold)
    ensures MixRounds(fold, data, 0, k, 0, 0, 8) == 0x69d25380b946ffc9
  {
    ZeroFirst7(fold, data, k);
    Secret0(k);
    ZeroMix(fold, data, 0, k, 0, 0xbe4ba423396cfeb8, 0x1cad21f72c81017c);
  }

  lemma ZeroLater1(fold: Folding, data: Bytes, k: Bytes)
    requires AllZero(data) && |data| >= 240 && IsSecret(k) && Known(fold)
    ensures MixRounds(fold, data, 224, k, 99, 0, 1) == 0x30337355c4208ffd
  {
    NoRounds(fold, data, 240, k, 115, 0);
    Secret99(k);
    ZeroMix(fold, data, 224, k, 99, 0xbbdcf93f349ce33f, 0xe0518a1d4f0bc7c7);
  }

  lemma ZeroLater2(fold: Folding, data: Bytes, k: Bytes)
    requires AllZero(data) && |data| >= 240 && IsSecret(k) && Known(fold)
    ensures MixRounds(fold, data, 208, k, 83, 0, 2) == 0x3dc6c18886ba2a65
  {
    ZeroLater1(fold, data, k);
    Secret83(k);
    ZeroMix(fold, data, 208, k, 83, 0xef19384ef90da297, 0x76faa8d8acdea946);
  }

  lemma ZeroLater3(fold: Folding, data: Bytes, k: Bytes)
    requires AllZero(data) && |data| >= 240 && IsSecret(k) && Known(fold)
    ensures MixRounds(fold, data, 192, k, 67, 0, 3) == 0xb112c05f24f17bfc
  {
    ZeroLater2(fold, data, k);
    Secret67(k);
    ZeroMix(fold, data, 192, k, 67, 0x65d088cb00c391bb, 0x486471a32e531b8b);
  }

  lemma ZeroLater4(fold: Folding, data: Bytes, k: Bytes)
    requires AllZero(data) && |data| >= 240 && IsSecret(k) && Known(fold)
    ensures MixRounds(fold, data, 176, k, 51, 0, 4) == 0xcb48793b63e7156f
  {
    ZeroLater3(fold, data, k);
    Secret51(k);
    ZeroMix(fold, data, 176, k, 51, 0x9035e08e2443f774, 0x52283c4c263a81e6);
  }

  lemma ZeroLater5(fold: Folding, data: Bytes, k: Bytes)
    requires AllZero(data) && |data| >= 240 && IsSecret(k) && Known(fold)
    ensures MixRounds(fold, data, 160, k, 35, 0, 5) == 0x743f69aac9ef06cc
  {
    ZeroLater4(fold, data, k);
    Secret35(k);
    ZeroMix(fold, data, 160, k, 35, 0xd05a8278e5c0cc4e, 0x4608b82172ffcc7d);
  }

  lemma ZeroLater6(fold: Folding, data: Bytes, k: Bytes)
    requires AllZero(data) && |data| >= 240 && IsSecret(k) && Known(fold)
    ensures MixRounds(fold, data, 144, k, 19, 0, 6) == 0x7904cc4c7e99d7c2
  {
    ZeroLater5(fold, data, k);
    Secret19(k);
    ZeroMix(fold, data, 144, k, 19, 0xa44072db979083e9, 0xe679cb1f67b3b7a4);
  }

  lemma ZeroLater7(fold: Folding, data: Bytes, k: Bytes)
    requires AllZero(data) && |data| >= 240 && IsSecret(k) && Known(fold)
    ensures MixRounds(fold, data, 128, k, 3, 0, 7) == 0xdbb1e4f0fb84346f
  {
    ZeroLater6(fold, data, k);
    Secret3(k);
    ZeroMix(fold, data, 128, k, 3, 0x81017cbe4ba42339, 0x6dd4de1cad21f72c);
  }

  lemma ReadHalves(k: Bytes)
    requires IsSecret(k)
    ensures ReadLE32(k, 0) == 0x00000000396cfeb8 && ReadLE32(k, 4) == 0x00000000be4ba423
  {
    ReadPart(k, 0, 16, 0, 4);
    ReadPart(k, 0, 16, 4, 4);
  }

  /** Inputs of zeros, at both ends of every length class. */
  lemma Zero0(fold: Folding, data: Bytes, k: Bytes)
    requires |data| == 0 && IsSecret(k) && Known(fold)
    ensures Short(fold, data, k, 0) == 0x2d06800538d394c2
  {
    Secret48(k);
    Secret64(k);
  }

  lemma Zero1(fold: Folding, data: Bytes, k: Bytes)
    requires AllZero(data) && |data| == 1 && IsSecret(k) && Known(fold)
    ensures Short(fold, data, k, 0) == 0xc44bdff4074eecdb
  {
    ReadHalves(k);
    assert data[0] == 0;
  }

  lemma Zero3(fold: Folding, data: Bytes, k: Bytes)
    requires AllZero(data) && |data| == 3 && IsSecret(k) && Known(fold)
    ensures Short(fold, data, k, 0) == 0xeb5d658bb22f286b
  {
    ReadHalves(k);
    assert data[0] == 0 && data[1] == 0 && data[2] == 0;
  }

  lemma Zero4(fold: Folding, data: Bytes, k: Bytes)
    requires AllZero(data) && |data| == 4 && IsSecret(k) && Known(fold)
    ensures Short(fold, data, k, 0) == 0x48b2c92616fc193d
  {
    ZeroRead(data, 0, 4);
    ZeroRead(data, 0, 4);
    Secret0(k);
    Secret16(k);
  }

  lemma Zero8(fold: Folding, data: Bytes, k: Bytes)
    requires AllZero(data) && |data| == 8 && IsSecret(k) && Known(fold)
    ensures Short(fold, data, k, 0) == 0xc77b3abb6f87acd9
  {
    ZeroRead(data, 0, 4);
    ZeroRead(data, 4, 4);
    Secret0(k);
    Secret16(k);
  }

  lemma Zero9(fold: Folding, data: Bytes, k: Bytes)
    requires AllZero(data) && |data| == 9 && IsSecret(k) && Known(fold)
    ensures Short(fold, data, k, 0) == 0x34499569f0391857
  {
    ZeroRead(data, 0, 8);
    ZeroRead(data, 1, 8);
    Secret16(k);
    Secret32(k);
    Secret48(k);
  }

  lemma Zero16(fold: Folding, data: Bytes, k: Bytes)
    requires AllZero(data) && |data| == 16 && IsSecret(k) && Known(fold)
    ensures Short(fold, data, k, 0) == 0xd0a66a65c7528968
  {
    ZeroRead(data, 0, 8);
    ZeroRead(data, 8, 8);
    Secret16(k);
    Secret32(k);
    Secret48(k);
  }

  lemma Zero17(fold: Folding, data: Bytes, k: Bytes)
    requires AllZero(data) && |data| == 17 && IsSecret(k) && Known(fold)
    ensures Short(fold, data, k, 0) == 0xc2915ca0df7ad4c1
  {
    ZeroEnds0(fold, data, k);
  }

  lemma Zero32(fold: Folding, data: Bytes, k: Bytes)
    requires AllZero(data) && |data| == 32 && IsSecret(k) && Known(fold)
    ensures Short(fold, data, k, 0) == 0xa057271c9071c99d
  {
    ZeroEnds0(fold, data, k);
  }

  lemma Zero33(fold: Folding, data: Bytes, k: Bytes)
    requires AllZero(data) && |data| == 33 && IsSecret(k) && Known(fold)
    ensures Short(fold, data, k, 0) == 0xb04859b19481d612
  {
    ZeroEnds0(fold, data, k);
    ZeroEnds1(fold, data, k);
  }

  lemma Zero64(fold: Folding, data: Bytes, k: Bytes)
    requires AllZero(data) && |data| == 64 && IsSecret(k) && Known(fold)
    ensures Short(fold, data, k, 0) == 0x2ffb6918c12c256e
  {
    ZeroEnds0(fold, data, k);
    ZeroEnds1(fold, data, k);
  }

  lemma Zero65(fold: Folding, data: Bytes, k: Bytes)
    requires AllZero(data) && |data| == 65 && IsSecret(k) && Known(fold)
    ensures Short(fold, data, k, 0) == 0x366a5eb034af8f31
  {
    ZeroEnds0(fold, data, k);
    ZeroEnds1(fold, data, k);
    ZeroEnds2(fold, data, k);
  }

  lemma Zero96(fold: Folding, data: Bytes, k: Bytes)
    requires AllZero(data) && |data| == 96 && IsSecret(k) && Known(fold)
    ensures Short(fold, data, k, 0) == 0xea99cbf87674b914
  {
    ZeroEnds0(fold, data, k);
    ZeroEnds1(fold, data, k);
    ZeroEnds2(fold, data, k);
  }

  lemma Zero97(fold: Folding, data: Bytes, k: Bytes)
    requires AllZero(data) && |data| == 97 && IsSecret(k) && Known(fold)
    ensures Short(fold, data, k, 0) == 0xf6cf4c7db61c3b63
  {
    ZeroEnds0(fold, data, k);
    ZeroEnds1(fold, data, k);
    ZeroEnds2(fold, data, k);
    ZeroEnds3(fold, data, k);
  }

  lemma Zero128(fold: Folding, data: Bytes, k: Bytes)
    requires AllZero(data) && |data| == 128 && IsSecret(k) && Known(fold)
    ensures Short(fold, data, k, 0) == 0x093c29f27ecfcf21
  {
    ZeroEnds0(fold, data, k);
    ZeroEnds1(fold, data, k);
    ZeroEnds2(fold, data, k);
    ZeroEnds3(fold, data, k);
  }

  lemma Zero129(fold: Folding, data: Bytes, k: Bytes)
    requires AllZero(data) && |data| == 129 && IsSecret(k) && Known(fold)
    ensures Short(fold, data, k, 0) == 0x37f7943eb2f51359
  {
    ZeroFirst8(fold, data, k);
    NoRounds(fold, data, 128, k, 3, 0);
    Secret119(k);
    ZeroMix(fold, data, 113, k, 119, 0x7378d9c97e9fc831, 0xebd33483acc5ea64);
  }

  lemma Zero240(fold: Folding, data: Bytes, k: Bytes)
    requires AllZero(data) && |data| == 240 && IsSecret(k) && Known(fold)
    ensures Short(fold, data, k, 0) == 0x053f07444f70da08
  {
    ZeroFirst8(fold, data, k);
    ZeroLater7(fold, data, k);
    Secret119(k);
    ZeroMix(fold, data, 224, k, 119, 0x7378d9c97e9fc831, 0xebd33483acc5ea64);
  }

  // ----- an input that varies, with a seed

  const SEED: bv64 := 0x9e3779b185ebca8d

  /** n bytes of the secret written twice, from the ninth on. */
  function Sample(k: Bytes, n: nat): (r: Bytes)
    requires |k| == 192 && 8 + n <= 384
    ensures |r| == n
  {
    (k + k)[8..8 + n]
  }

  lemma SampleRead(k: Bytes, n: nat, i: nat, j: nat)
    requires |k| == 192 && 8 + n <= 384 && i + 8 <= n && j + 8 <= 192 && (j == i + 8 || j == i + 8 - 192)
    ensures ReadLE64(Sample(k, n), i) == ReadLE64(k, j)
  {
    var s := Sample(k, n);
    ReadPart(s, i, i + 8, i, 8);
    ReadPart(k, j, j + 8, j, 8);
    var a, b := s[i..i + 8], k[j..j + 8];
    forall t | 0 <= t < 8 ensures a[t] == b[t] {
      assert a[t] == (k + k)[8 + i + t];
    }
  }

  /** data starts with the words of the sample. */
  ghost predicate IsSample(data: Bytes) {
    && (|data| >= 8 ==> ReadLE64(data, 0) == 0x1cad21f72c81017c)
    && (|data| >= 16 ==> ReadLE64(data, 8) == 0xdb979083e96dd4de)
    && (|data| >= 24 ==> ReadLE64(data, 16) == 0x1f67b3b7a4a44072)
    && (|data| >= 32 ==> ReadLE64(data, 24) == 0x78e5c0cc4ee679cb)
    && (|data| >= 40 ==> ReadLE64(data, 32) == 0x2172ffcc7dd05a82)
    && (|data| >= 48 ==> ReadLE64(data, 40) == 0x8e2443f7744608b8)
    && (|data| >= 56 ==> ReadLE64(data, 48) == 0x4c263a81e69035e0)
    && (|data| >= 64 ==> ReadLE64(data, 56) == 0xcb00c391bb52283c)
    && (|data| >= 72 ==> ReadLE64(data, 64) == 0xa32e531b8b65d088)
    && (|data| >= 80 ==> ReadLE64(data, 72) == 0x4ef90da297486471)
    && (|data| >= 88 ==> ReadLE64(data, 80) == 0xd8acdea946ef1938)
    && (|data| >= 96 ==> ReadLE64(data, 88) == 0x3f349ce33f76faa8)
    && (|data| >= 104 ==> ReadLE64(data, 96) == 0x1d4f0bc7c7bbdcf9)
    && (|data| >= 112 ==> ReadLE64(data, 104) == 0x3159b4cd4be0518a)
    && (|data| >= 120 ==> ReadLE64(data, 112) == 0x647378d9c97e9fc8)
    && (|data| >= 128 ==> ReadLE64(data, 120) == 0xc3ebd33483acc5ea)
    && (|data| >= 136 ==> ReadLE64(data, 128) == 0xeb6313faffa081c5)
    && (|data| >= 144 ==> ReadLE64(data, 136) == 0x49daf0b751dd0d17)
  }

  lemma SampleWords0(k: Bytes, n: nat)
    requires IsSecret(k) && 8 + n <= 384
    ensures n >= 8 ==> ReadLE64(Sample(k, n), 0) == 0x1cad21f72c81017c
    ensures n >= 16 ==> ReadLE64(Sample(k, n), 8) == 0xdb979083e96dd4de
  {
    Secret0(k);
    Secret16(k);
    if n >= 8 {
      SampleRead(k, n, 0, 8);
    }
    if n >= 16 {
      SampleRead(k, n, 8, 16);
    }
  }

  lemma SampleWords16(k: Bytes, n: nat)
    requires IsSecret(k) && 8 + n <= 384
    ensures n >= 24 ==> ReadLE64(Sample(k, n), 16) == 0x1f67b3b7a4a44072
    ensures n >= 32 ==> ReadLE64(Sample(k, n), 24) == 0x78e5c0cc4ee679cb
  {
    Secret16(k);
    Secret32(k);
    if n >= 24 {
      SampleRead(k, n, 16, 24);
    }
    if n >= 32 {
      SampleRead(k, n, 24, 32);
    }
  }

  lemma SampleWords32(k: Bytes, n: nat)
    requires IsSecret(k) && 8 + n <= 384
    ensures n >= 40 ==> ReadLE64(Sample(k, n), 32) == 0x2172ffcc7dd05a82
    ensures n >= 48 ==> ReadLE64(Sample(k, n), 40) == 0x8e2443f7744608b8
  {
    Secret32(k);
    Secret48(k);
    if n >= 40 {
      SampleRead(k, n, 32, 40);
    }
    if n >= 48 {
      SampleRead(k, n, 40, 48);
    }
  }

  lemma SampleWords48(k: Bytes, n: nat)
    requires IsSecret(k) && 8 + n <= 384
    ensures n >= 56 ==> ReadLE64(Sample(k, n), 48) == 0x4c263a81e69035e0
    ensures n >= 64 ==> ReadLE64(Sample(k, n), 56) == 0xcb00c391bb52283c
  {
    Secret48(k);
    Secret64(k);
    if n >= 56 {
      SampleRead(k, n, 48, 56);
    }
    if n >= 64 {
      SampleRead(k, n, 56, 64);
    }
  }

  lemma SampleWords64(k: Bytes, n: nat)
    requires IsSecret(k) && 8 + n <= 384
    ensures n >= 72 ==> ReadLE64(Sample(k, n), 64) == 0xa32e531b8b65d088
    ensures n >= 80 ==> ReadLE64(Sample(k, n), 72) == 0x4ef90da297486471
  {
    Secret64(k);
    Secret80(k);
    if n >= 72 {
      SampleRead(k, n, 64, 72);
    }
    if n >= 80 {
      SampleRead(k, n, 72, 80);
    }
  }

  lemma SampleWords80(k: Bytes, n: nat)
    requires IsSecret(k) && 8 + n <= 384
    ensures n >= 88 ==> ReadLE64(Sample(k, n), 80) == 0xd8acdea946ef1938
    ensures n >= 96 ==> ReadLE64(Sample(k, n), 88) == 0x3f349ce33f76faa8
  {
    Secret80(k);
    Secret96(k);
    if n >= 88 {
      SampleRead(k, n, 80, 88);
    }
    if n >= 96 {
      SampleRead(k, n, 88, 96);
    }
  }

  lemma SampleWords96(k: Bytes, n: nat)
    requires IsSecret(k) && 8 + n <= 384
    ensures n >= 104 ==> ReadLE64(Sample(k, n), 96) == 0x1d4f0bc7c7bbdcf9
    ensures n >= 112 ==> ReadLE64(Sample(k, n), 104) == 0x3159b4cd4be0518a
  {
    Secret96(k);
    Secret112(k);
    if n >= 104 {
      SampleRead(k, n, 96, 104);
    }
    if n >= 112 {
      SampleRead(k, n, 104, 112);
    }
  }

  lemma SampleWords112(k: Bytes, n: nat)
    requires IsSecret(k) && 8 + n <= 384
    ensures n >= 120 ==> ReadLE64(Sample(k, n), 112) == 0x647378d9c97e9fc8
    ensures n >= 128 ==> ReadLE64(Sample(k, n), 120) == 0xc3ebd33483acc5ea
  {
    Secret112(k);
    Secret128(k);
    if n >= 120 {
      SampleRead(k, n, 112, 120);
    }
    if n >= 128 {
      SampleRead(k, n, 120, 128);
    }
  }

  lemma SampleWords128(k: Bytes, n: nat)
    requires IsSecret(k) && 8 + n <= 384
    ensures n >= 136 ==> ReadLE64(Sample(k, n), 128) == 0xeb6313faffa081c5
    ensures n >= 144 ==> ReadLE64(Sample(k, n), 136) == 0x49daf0b751dd0d17
  {
    Secret128(k);
    Secret144(k);
    if n >= 136 {
      SampleRead(k, n, 128, 136);
    }
    if n >= 144 {
      SampleRead(k, n, 136, 144);
    }
  }

  lemma SampleIs(k: Bytes, n: nat)
    requires IsSecret(k) && 8 + n <= 384
    ensures IsSample(Sample(k, n))
  {
    SampleWords0(k, n);
    SampleWords16(k, n);
    SampleWords32(k, n);
    SampleWords48(k, n);
    SampleWords64(k, n);
    SampleWords80(k, n);
    SampleWords96(k, n);
    SampleWords112(k, n);
    SampleWords128(k, n);
  }

  /** The mixes of two words of the sample. */
  lemma Sample120Mix0At0(fold: Folding, data: Bytes, k: Bytes)
    requires |data| == 120 && IsSample(data) && IsSecret(k) && Known(fold)
    ensures Mix16B(fold, data, 0, k, 0, SEED) == 0xfd012ce0c7037ed0
  {
    Secret0(k);
  }

  lemma Sample120Mix104At16(fold: Folding, data: Bytes, k: Bytes)
    requires |data| == 120 && IsSample(data) && IsSecret(k) && Known(fold)
    ensures Mix16B(fold, data, 104, k, 16, SEED) == 0xb7e6e49a0d4e203d
  {
    Secret16(k);
  }

  lemma Sample120Mix16At32(fold: Folding, data: Bytes, k: Bytes)
    requires |data| == 120 && IsSample(data) && IsSecret(k) && Known(fold)
    ensures Mix16B(fold, data, 16, k, 32, SEED) == 0x377089969ee7333b
  {
    Secret32(k);
  }

  lemma Sample120Mix88At48(fold: Folding, data: Bytes, k: Bytes)
    requires |data| == 120 && IsSample(data) && IsSecret(k) && Known(fold)
    ensures Mix16B(fold, data, 88, k, 48, SEED) == 0x4940e6ab7db7ba93
  {
    Secret48(k);
  }

  lemma Sample120Mix32At64(fold: Folding, data: Bytes, k: Bytes)
    requires |data| == 120 && IsSample(data) && IsSecret(k) && Known(fold)
    ensures Mix16B(fold, data, 32, k, 64, SEED) == 0x7c5f714eaf6753f0
  {
    Secret64(k);
  }

  lemma Sample120Mix72At80(fold: Folding, data: Bytes, k: Bytes)
    requires |data| == 120 && IsSample(data) && IsSecret(k) && Known(fold)
    ensures Mix16B(fold, data, 72, k, 80, SEED) == 0xd36928c8bca2ab73
  {
    Secret80(k);
  }

  lemma Sample120Mix48At96(fold: Folding, data: Bytes, k: Bytes)
    requires |data| == 120 && IsSample(data) && IsSecret(k) && Known(fold)
    ensures Mix16B(fold, data, 48, k, 96, SEED) == 0x1140144fe3ccd7ee
  {
    Secret96(k);
  }

  lemma Sample120Mix56At112(fold: Folding, data: Bytes, k: Bytes)
    requires |data| == 120 && IsSample(data) && IsSecret(k) && Known(fold)
    ensures Mix16B(fold, data, 56, k, 112, SEED) == 0x71df3e99631987bc
  {
    Secret112(k);
  }

  lemma Sample120Ends0(fold: Folding, data: Bytes, k: Bytes)
    requires |data| == 120 && IsSample(data) && IsSecret(k) && Known(fold)
    ensures MixEnds(fold, data, 0, k, SEED) == 0xb4e8117ad4519f0d
  {
    Sample120Mix0At0(fold, data, k);
    Sample120Mix104At16(fold, data, k);
  }

  lemma Sample120Ends1(fold: Folding, data: Bytes, k: Bytes)
    requires |data| == 120 && IsSample(data) && IsSecret(k) && Known(fold)
    ensures MixEnds(fold, data, 1, k, SEED) == 0x80b170421c9eedce
  {
    Sample120Mix16At32(fold, data, k);
    Sample120Mix88At48(fold, data, k);
  }

  lemma Sample120Ends2(fold: Folding, data: Bytes, k: Bytes)
    requires |data| == 120 && IsSample(data) && IsSecret(k) && Known(fold)
    ensures MixEnds(fold, data, 2, k, SEED) == 0x4fc89a176c09ff63
  {
    Sample120Mix32At64(fold, data, k);
    Sample120Mix72At80(fold, data, k);
  }

  lemma Sample120Ends3(fold: Folding, data: Bytes, k: Bytes)
    requires |data| == 120 && IsSample(data) && IsSecret(k) && Known(fold)
    ensures MixEnds(fold, data, 3, k, SEED) == 0x831f52e946e65faa
  {
    Sample120Mix48At96(fold, data, k);
    Sample120Mix56At112(fold, data, k);
  }

  lemma Sample144Mix0At0(fold: Folding, data: Bytes, k: Bytes)
    requires |data| == 144 && IsSample(data) && IsSecret(k) && Known(fold)
    ensures Mix16B(fold, data, 0, k, 0, SEED) == 0xfd012ce0c7037ed0
  {
    Secret0(k);
  }

  lemma Sample144Mix16At16(fold: Folding, data: Bytes, k: Bytes)
    requires |data| == 144 && IsSample(data) && IsSecret(k) && Known(fold)
    ensures Mix16B(fold, data, 16, k, 16, SEED) == 0x4fe8ccde3185770a
  {
    Secret16(k);
  }

  lemma Sample144Mix32At32(fold: Folding, data: Bytes, k: Bytes)
    requires |data| == 144 && IsSample(data) && IsSecret(k) && Known(fold)
    ensures Mix16B(fold, data, 32, k, 32, SEED) == 0x3928ef2a7d6e2c97
  {
    Secret32(k);
  }

  lemma Sample144Mix48At48(fold: Folding, data: Bytes, k: Bytes)
    requires |data| == 144 && IsSample(data) && IsSecret(k) && Known(fold)
    ensures Mix16B(fold, data, 48, k, 48, SEED) == 0x32c959d1c7e01150
  {
    Secret48(k);
  }

  lemma Sample144Mix64At64(fold: Folding, data: Bytes, k: Bytes)
    requires |data| == 144 && IsSample(data) && IsSecret(k) && Known(fold)
    ensures Mix16B(fold, data, 64, k, 64, SEED) == 0x47da7b3f312eba45
  {
    Secret64(k);
  }

  lemma Sample144Mix80At80(fold: Folding, data: Bytes, k: Bytes)
    requires |data| == 144 && IsSample(data) && IsSecret(k) && Known(fold)
    ensures Mix16B(fold, data, 80, k, 80, SEED) == 0xa56e04e5808b05aa
  {
    Secret80(k);
  }

  lemma Sample144Mix96At96(fold: Folding, data: Bytes, k: Bytes)
    requires |data| == 144 && IsSample(data) && IsSecret(k) && Known(fold)
    ensures Mix16B(fold, data, 96, k, 96, SEED) == 0x015e3545f93e946a
  {
    Secret96(k);
  }

  lemma Sample144Mix112At112(fold: Folding, data: Bytes, k: Bytes)
    requires |data| == 144 && IsSample(data) && IsSecret(k) && Known(fold)
    ensures Mix16B(fold, data, 112, k, 112, SEED) == 0xa976ff485e04b433
  {
    Secret112(k);
  }

  lemma Sample144First1(fold: Folding, data: Bytes, k: Bytes)
    requires |data| == 144 && IsSample(data) && IsSecret(k) && Known(fold)
    ensures MixRounds(fold, data, 112, k, 112, SEED, 1) == 0xa976ff485e04b433
  {
    NoRounds(fold, data, 128, k, 128, SEED);
    Sample144Mix112At112(fold, data, k);
  }

  lemma Sample144First2(fold: Folding, data: Bytes, k: Bytes)
    requires |data| == 144 && IsSample(data) && IsSecret(k) && Known(fold)
    ensures MixRounds(fold, data, 96, k, 96, SEED, 2) == 0xaad5348e5743489d
  {
    Sample144First1(fold, data, k);
    Sample144Mix96At96(fold, data, k);
  }

  lemma Sample144First3(fold: Folding, data: Bytes, k: Bytes)
    requires |data| == 144 && IsSample(data) && IsSecret(k) && Known(fold)
    ensures MixRounds(fold, data, 80, k, 80, SEED, 3) == 0x50433973d7ce4e47
  {
    Sample144First2(fold, data, k);
    Sample144Mix80At80(fold, data, k);
  }

  lemma Sample144First4(fold: Folding, data: Bytes, k: Bytes)
    requires |data| == 144 && IsSample(data) && IsSecret(k) && Known(fold)
    ensures MixRounds(fold, data, 64, k, 64, SEED, 4) == 0x981db4b308fd088c
  {
    Sample144First3(fold, data, k);
    Sample144Mix64At64(fold, data, k);
  }

  lemma Sample144First5(fold: Folding, data: Bytes, k: Bytes)
    requires |data| == 144 && IsSample(data) && IsSecret(k) && Known(fold)
    ensures MixRounds(fold, data, 48, k, 48, SEED, 5) == 0xcae70e84d0dd19dc
  {
    Sample144First4(fold, data, k);
    Sample144Mix48At48(fold, data, k);
  }

  lemma Sample144First6(fold: Folding, data: Bytes, k: Bytes)
    requires |data| == 144 && IsSample(data) && IsSecret(k) && Known(fold)
    ensures MixRounds(fold, data, 32, k, 32, SEED, 6) == 0x040ffdaf4e4b4673
  {
    Sample144First5(fold, data, k);
    Sample144Mix32At32(fold, data, k);
  }

  lemma Sample144First7(fold: Folding, data: Bytes, k: Bytes)
    requires |data| == 144 && IsSample(data) && IsSecret(k) && Known(fold)
    ensures MixRounds(fold, data, 16, k, 16, SEED, 7) == 0x53f8ca8d7fd0bd7d
  {
    Sample144First6(fold, data, k);
    Sample144Mix16At16(fold, data, k);
  }

  lemma Sample144First8(fold: Folding, data: Bytes, k: Bytes)
    requires |data| == 144 && IsSample(data) && IsSecret(k) && Known(fold)
    ensures MixRounds(fold, data, 0, k, 0, SEED, 8) == 0x50f9f76e46d43c4d
  {
    Sample144First7(fold, data, k);
    Sample144Mix0At0(fold, data, k);
  }

  lemma Sample144Mix128At3(fold: Folding, data: Bytes, k: Bytes)
    requires |data| == 144 && IsSample(data) && IsSecret(k) && Known(fold)
    ensures Mix16B(fold, data, 128, k, 3, SEED) == 0x4e816fda7d1c3c5f
  {
    Secret3(k);
  }

  lemma Sample144Later1(fold: Folding, data: Bytes, k: Bytes)
    requires |data| == 144 && IsSample(data) && IsSecret(k) && Known(fold)
    ensures MixRounds(fold, data, 128, k, 3, SEED, 1) == 0x4e816fda7d1c3c5f
  {
    NoRounds(fold, data, 144, k, 19, SEED);
    Sample144Mix128At3(fold, data, k);
  }

  lemma Sample144Mix128At119(fold: Folding, data: Bytes, k: Bytes)
    requires |data| == 144 && IsSample(data) && IsSecret(k) && Known(fold)
    ensures Mix16B(fold, data, 128, k, 119, SEED) == 0x9608e361fe80db02
  {
    Secret119(k);
  }

  /** One sample in every length class. */
  lemma Three(fold: Folding, data: Bytes, k: Bytes)
    requires data == [0x7c, 0x01, 0x81] && IsSecret(k)
    ensures Short(fold, data, k, SEED) == 0x044ffc26bf955368
  {
    ReadHalves(k);
  }

  lemma Seven(fold: Folding, data: Bytes, k: Bytes)
    requires data == [0x7c, 0x01, 0x81, 0x2c, 0xf7, 0x21, 0xad] && IsSecret(k)
    ensures Short(fold, data, k, SEED) == 0xa97212b33ed62fdf
  {
    Secret0(k);
    Secret16(k);
    assert ReadLE32(data, 0) == 0x000000002c81017c && ReadLE32(data, 3) == 0x00000000ad21f72c;
  }

  lemma Sample13(fold: Folding, data: Bytes, k: Bytes)
    requires |data| == 13 && IsSample(data) && ReadLE64(data, 5) == 0x83e96dd4de1cad21 && IsSecret(k) && Known(fold)
    ensures Short(fold, data, k, SEED) == 0xfa8f2aa547758baf
  {
    Secret16(k);
    Secret32(k);
    Secret48(k);
  }

  lemma Sum120(fold: Folding, data: Bytes, k: Bytes)
    requires |data| == 120 && |k| == 192
    requires MixEnds(fold, data, 0, k, SEED) == 0xb4e8117ad4519f0d && MixEnds(fold, data, 1, k, SEED) == 0x80b170421c9eedce
    requires MixEnds(fold, data, 2, k, SEED) == 0x4fc89a176c09ff63 && MixEnds(fold, data, 3, k, SEED) == 0x831f52e946e65faa
    ensures Short(fold, data, k, SEED) == 0x854e3e9f4fa63998
  {
  }

  lemma Sample120(fold: Folding, data: Bytes, k: Bytes)
    requires |data| == 120 && IsSample(data) && IsSecret(k) && Known(fold)
    ensures Short(fold, data, k, SEED) == 0x854e3e9f4fa63998
  {
    Sample120Ends0(fold, data, k);
    Sample120Ends1(fold, data, k);
    Sample120Ends2(fold, data, k);
    Sample120Ends3(fold, data, k);
    Sum120(fold, data, k);
  }

  lemma Sample144(fold: Folding, data: Bytes, k: Bytes)
    requires |data| == 144 && IsSample(data) && IsSecret(k) && Known(fold)
    ensures Short(fold, data, k, SEED) == 0x964ec30c6889f340
  {
    Sample144First8(fold, data, k);
    Sample144Later1(fold, data, k);
    Sample144Mix128At119(fold, data, k);
  }

  lemma Empty(fold: Folding, data: Bytes, k: Bytes)
    requires data == [] && IsSecret(k)
    ensures Short(fold, data, k, SEED) == 0xa8a6b918b2f0364a
  {
    Secret48(k);
    Secret64(k);
  }

  /** The text "ab". */
  lemma TextAb(fold: Folding, data: Bytes, k: Bytes)
    requires data == [0x61, 0x62] && IsSecret(k)
    ensures Short(fold, data, k, 0) == 0xa873719c24d5735c
  {
    ReadHalves(k);
  }

}
