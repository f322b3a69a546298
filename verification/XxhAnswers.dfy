/** Known answers of XXH32 and XXH64: the empty input, less than a stripe, and a stripe and more with a seed. */
module XxhAnswers {
  import opened Stripes
  import opened XxhStriped
  import Xxh32
  import Xxh64

  lemma BelowStripe<S(!new), H(!new)>(e: Engine<S, H>, data: Bytes)
    requires Proper(e) && |data| < e.width
    ensures Hash(e, data) == e.finish(e.addLen(e.empty, |data| % e.modulus), data)
  {
  }

  lemma OneStripe<S(!new), H(!new)>(e: Engine<S, H>, stripe: Bytes, tail: Bytes)
    requires Proper(e) && |stripe| == e.width && |tail| < e.width
    ensures Hash(e, stripe + tail)
      == e.finish(e.addLen(e.converge(e.stripe(e.start, stripe)), |stripe + tail| % e.modulus), tail)
  {
    var data := stripe + tail;
    assert data[..e.width] == stripe && data[e.width..] == tail;
    assert Fold(e.stripe, e.stripe(e.start, stripe), tail, e.width) == e.stripe(e.start, stripe);
  }

  // ----- XXH32

  const STRIPE16: Bytes := [0x7c, 0x01, 0x81, 0x2c, 0xf7, 0x21, 0xad, 0x1c, 0xde, 0xd4, 0x6d, 0xe9, 0x83, 0x90, 0x97, 0xdb]
  const TAIL16: Bytes := [0x72, 0x40, 0xa4, 0xa4, 0xb7, 0xb3, 0x67, 0x1f, 0xcb, 0x79, 0xe6]

  /** What the steps make of the words the answers meet. */
  ghost predicate KnownXxh32(m: Xxh32.Steps) {
    && m.round(0xc25abdd9, 0x2c81017c) == 0xb1f3a5aa
    && m.round(0x24234428, 0x1cad21f7) == 0xf50cbd84
    && m.round(0x9e3779b1, 0xe96dd4de) == 0xaf132100
    && m.round(0x00000000, 0xdb979083) == 0x07394727
    && m.addLen(0x38f235a5, 27) == 0x38f235c0
    && m.addLen(0x165667b1, 11) == 0x165667bc
    && m.addLen(0x165667b1, 0) == 0x165667b1
    && m.four(0x38f235c0, 0xa4a44072) == 0x3e993252
    && m.four(0x3e993252, 0x1f67b3b7) == 0x937c91ba
    && m.one(0x937c91ba, 0xcb) == 0x42fd9150
    && m.one(0x42fd9150, 0x79) == 0x5fa0ee2e
    && m.one(0x5fa0ee2e, 0xe6) == 0x9d4c4c6a
    && m.avalanche(0x9d4c4c6a) == 0xd3aeeb25
    && m.four(0x165667bc, 0xa4a44072) == 0x272a150a
    && m.four(0x272a150a, 0x1f67b3b7) == 0xd6262cf8
    && m.one(0xd6262cf8, 0xcb) == 0x619cded5
    && m.one(0x619cded5, 0x79) == 0xa6680c93
    && m.one(0xa6680c93, 0xe6) == 0x51fa01c0
    && m.avalanche(0x51fa01c0) == 0xe3d23a11
    && m.avalanche(0x165667b1) == 0x02cc5d05
  }

  lemma Step16No0() ensures Xxh32.Round(0xc25abdd9, 0x2c81017c) == 0xb1f3a5aa { }

  lemma Step16No1() ensures Xxh32.Round(0x24234428, 0x1cad21f7) == 0xf50cbd84 { }

  lemma Step16No2() ensures Xxh32.Round(0x9e3779b1, 0xe96dd4de) == 0xaf132100 { }

  lemma Step16No3() ensures Xxh32.Round(0x00000000, 0xdb979083) == 0x07394727 { }

  lemma Step16No4() ensures Xxh32.AddLen(0x38f235a5, 27) == 0x38f235c0 { }

  lemma Step16No5() ensures Xxh32.AddLen(0x165667b1, 11) == 0x165667bc { }

  lemma Step16No6() ensures Xxh32.AddLen(0x165667b1, 0) == 0x165667b1 { }

  lemma Step16No7() ensures Xxh32.Four(0x38f235c0, 0xa4a44072) == 0x3e993252 { }

  lemma Step16No8() ensures Xxh32.Four(0x3e993252, 0x1f67b3b7) == 0x937c91ba { }

  lemma Step16No9() ensures Xxh32.One(0x937c91ba, 0xcb) == 0x42fd9150 { }

  lemma Step16No10() ensures Xxh32.One(0x42fd9150, 0x79) == 0x5fa0ee2e { }

  lemma Step16No11() ensures Xxh32.One(0x5fa0ee2e, 0xe6) == 0x9d4c4c6a { }

  lemma Step16No12() ensures Xxh32.Avalanche(0x9d4c4c6a) == 0xd3aeeb25 { }

  lemma Step16No13() ensures Xxh32.Four(0x165667bc, 0xa4a44072) == 0x272a150a { }

  lemma Step16No14() ensures Xxh32.Four(0x272a150a, 0x1f67b3b7) == 0xd6262cf8 { }

  lemma Step16No15() ensures Xxh32.One(0xd6262cf8, 0xcb) == 0x619cded5 { }

  lemma Step16No16() ensures Xxh32.One(0x619cded5, 0x79) == 0xa6680c93 { }

  lemma Step16No17() ensures Xxh32.One(0xa6680c93, 0xe6) == 0x51fa01c0 { }

  lemma Step16No18() ensures Xxh32.Avalanche(0x51fa01c0) == 0xe3d23a11 { }

  lemma Step16No19() ensures Xxh32.Avalanche(0x165667b1) == 0x02cc5d05 { }

  lemma Steps16Known()
    ensures KnownXxh32(Xxh32.STEPS)
  {
    Step16No0();
    Step16No1();
    Step16No2();
    Step16No3();
    Step16No4();
    Step16No5();
    Step16No6();
    Step16No7();
    Step16No8();
    Step16No9();
    Step16No10();
    Step16No11();
    Step16No12();
    Step16No13();
    Step16No14();
    Step16No15();
    Step16No16();
    Step16No17();
    Step16No18();
    Step16No19();
  }

  lemma Word16At0() ensures Xxh32.ReadLE32(STRIPE16, 0) == 0x2c81017c { }

  lemma Word16At4() ensures Xxh32.ReadLE32(STRIPE16, 4) == 0x1cad21f7 { }

  lemma Word16At8() ensures Xxh32.ReadLE32(STRIPE16, 8) == 0xe96dd4de { }

  lemma Word16At12() ensures Xxh32.ReadLE32(STRIPE16, 12) == 0xdb979083 { }

  lemma StripeOf16(m: Xxh32.Steps, v: Xxh32.Lanes, s: Bytes)
    requires KnownXxh32(m) && |s| == 16 && v == Xxh32.Lanes(0xc25abdd9, 0x24234428, 0x9e3779b1, 0x00000000)
    requires Xxh32.ReadLE32(s, 0) == 0x2c81017c
    requires Xxh32.ReadLE32(s, 4) == 0x1cad21f7
    requires Xxh32.ReadLE32(s, 8) == 0xe96dd4de
    requires Xxh32.ReadLE32(s, 12) == 0xdb979083
    ensures Xxh32.Stripe(m, v, s) == Xxh32.Lanes(0xb1f3a5aa, 0xf50cbd84, 0xaf132100, 0x07394727)
  {
  }

  lemma Start16()
    ensures Xxh32.Init(0x9e3779b1) == Xxh32.Lanes(0xc25abdd9, 0x24234428, 0x9e3779b1, 0x00000000)
  {
  }

  lemma Converge16()
    ensures Xxh32.Converge(Xxh32.Lanes(0xb1f3a5aa, 0xf50cbd84, 0xaf132100, 0x07394727)) == 0x38f235a5
  {
  }

  /** The tail after the stripe, and the tail alone. */
  lemma Seeded16Tail0(m: Xxh32.Steps, tail: Bytes)
    requires KnownXxh32(m) && tail == []
    ensures Xxh32.Finalize(m, 0x9d4c4c6a, tail) == 0xd3aeeb25
  {
  }

  lemma Seeded16Tail1(m: Xxh32.Steps, tail: Bytes)
    requires KnownXxh32(m) && tail == [0xe6]
    ensures Xxh32.Finalize(m, 0x5fa0ee2e, tail) == 0xd3aeeb25
  {
    assert tail[1..] == [];
    Seeded16Tail0(m, tail[1..]);
  }

  lemma Seeded16Tail2(m: Xxh32.Steps, tail: Bytes)
    requires KnownXxh32(m) && tail == [0x79, 0xe6]
    ensures Xxh32.Finalize(m, 0x42fd9150, tail) == 0xd3aeeb25
  {
    assert tail[1..] == [0xe6];
    Seeded16Tail1(m, tail[1..]);
  }

  lemma Seeded16Tail3(m: Xxh32.Steps, tail: Bytes)
    requires KnownXxh32(m) && tail == [0xcb, 0x79, 0xe6]
    ensures Xxh32.Finalize(m, 0x937c91ba, tail) == 0xd3aeeb25
  {
    assert tail[1..] == [0x79, 0xe6];
    Seeded16Tail2(m, tail[1..]);
  }

  lemma Seeded16Tail7(m: Xxh32.Steps, tail: Bytes)
    requires KnownXxh32(m) && tail == [0xb7, 0xb3, 0x67, 0x1f, 0xcb, 0x79, 0xe6]
    ensures Xxh32.Finalize(m, 0x3e993252, tail) == 0xd3aeeb25
  {
    assert tail[4..] == [0xcb, 0x79, 0xe6];
    Seeded16Tail3(m, tail[4..]);
  }

  lemma Seeded16Tail11(m: Xxh32.Steps, tail: Bytes)
    requires KnownXxh32(m) && tail == [0x72, 0x40, 0xa4, 0xa4, 0xb7, 0xb3, 0x67, 0x1f, 0xcb, 0x79, 0xe6]
    ensures Xxh32.Finalize(m, 0x38f235c0, tail) == 0xd3aeeb25
  {
    assert tail[4..] == [0xb7, 0xb3, 0x67, 0x1f, 0xcb, 0x79, 0xe6];
    Seeded16Tail7(m, tail[4..]);
  }

  lemma Short16Tail0(m: Xxh32.Steps, tail: Bytes)
    requires KnownXxh32(m) && tail == []
    ensures Xxh32.Finalize(m, 0x51fa01c0, tail) == 0xe3d23a11
  {
  }

  lemma Short16Tail1(m: Xxh32.Steps, tail: Bytes)
    requires KnownXxh32(m) && tail == [0xe6]
    ensures Xxh32.Finalize(m, 0xa6680c93, tail) == 0xe3d23a11
  {
    assert tail[1..] == [];
    Short16Tail0(m, tail[1..]);
  }

  lemma Short16Tail2(m: Xxh32.Steps, tail: Bytes)
    requires KnownXxh32(m) && tail == [0x79, 0xe6]
    ensures Xxh32.Finalize(m, 0x619cded5, tail) == 0xe3d23a11
  {
    assert tail[1..] == [0xe6];
    Short16Tail1(m, tail[1..]);
  }

  lemma Short16Tail3(m: Xxh32.Steps, tail: Bytes)
    requires KnownXxh32(m) && tail == [0xcb, 0x79, 0xe6]
    ensures Xxh32.Finalize(m, 0xd6262cf8, tail) == 0xe3d23a11
  {
    assert tail[1..] == [0x79, 0xe6];
    Short16Tail2(m, tail[1..]);
  }

  lemma Short16Tail7(m: Xxh32.Steps, tail: Bytes)
    requires KnownXxh32(m) && tail == [0xb7, 0xb3, 0x67, 0x1f, 0xcb, 0x79, 0xe6]
    ensures Xxh32.Finalize(m, 0x272a150a, tail) == 0xe3d23a11
  {
    assert tail[4..] == [0xcb, 0x79, 0xe6];
    Short16Tail3(m, tail[4..]);
  }

  lemma Short16Tail11(m: Xxh32.Steps, tail: Bytes)
    requires KnownXxh32(m) && tail == [0x72, 0x40, 0xa4, 0xa4, 0xb7, 0xb3, 0x67, 0x1f, 0xcb, 0x79, 0xe6]
    ensures Xxh32.Finalize(m, 0x165667bc, tail) == 0xe3d23a11
  {
    assert tail[4..] == [0xb7, 0xb3, 0x67, 0x1f, 0xcb, 0x79, 0xe6];
    Short16Tail7(m, tail[4..]);
  }

  lemma Empty16Tail0(m: Xxh32.Steps, tail: Bytes)
    requires KnownXxh32(m) && tail == []
    ensures Xxh32.Finalize(m, 0x165667b1, tail) == 0x02cc5d05
  {
  }

  lemma ProperOf16(m: Xxh32.Steps, seed: bv32)
    ensures Proper(Xxh32.EngineOf(m, seed)) && Xxh32.EngineOf(m, seed).width == 16
  {
    var e := Xxh32.EngineOf(m, seed);
    assert e.short(e.start) == Xxh32.Init(seed).v3 + Xxh32.PRIME32_5;
  }

  /** A hash from its parts. */
  lemma Below16(m: Xxh32.Steps, seed: bv32, data: Bytes, len: nat)
    requires |data| == len < 16
    ensures Proper(Xxh32.EngineOf(m, seed))
    ensures Hash(Xxh32.EngineOf(m, seed), data) == Xxh32.Finalize(m, m.addLen(seed + Xxh32.PRIME32_5, len), data)
  {
    ProperOf16(m, seed);
    BelowStripe(Xxh32.EngineOf(m, seed), data);
  }

  lemma Above16(m: Xxh32.Steps, seed: bv32, stripe: Bytes, tail: Bytes, len: nat)
    requires |stripe| == 16 && |tail| < 16 && len == 16 + |tail|
    ensures Proper(Xxh32.EngineOf(m, seed))
    ensures Hash(Xxh32.EngineOf(m, seed), stripe + tail)
      == Xxh32.Finalize(m, m.addLen(Xxh32.Converge(Xxh32.Stripe(m, Xxh32.Init(seed), stripe)), len), tail)
  {
    ProperOf16(m, seed);
    OneStripe(Xxh32.EngineOf(m, seed), stripe, tail);
  }

  lemma EmptyOf16(m: Xxh32.Steps)
    requires KnownXxh32(m)
    ensures Proper(Xxh32.EngineOf(m, 0)) && Hash(Xxh32.EngineOf(m, 0), []) == 0x02cc5d05
  {
    Below16(m, 0, [], 0);
    Empty16Tail0(m, []);
  }

  lemma ShortOf16(m: Xxh32.Steps, tail: Bytes)
    requires KnownXxh32(m) && tail == TAIL16
    ensures Proper(Xxh32.EngineOf(m, 0)) && Hash(Xxh32.EngineOf(m, 0), tail) == 0xe3d23a11
  {
    Below16(m, 0, tail, 11);
    Short16Tail11(m, tail);
  }

  lemma LongOf16(m: Xxh32.Steps, stripe: Bytes, tail: Bytes)
    requires KnownXxh32(m) && stripe == STRIPE16 && tail == TAIL16
    ensures Proper(Xxh32.EngineOf(m, 0x9e3779b1)) && Hash(Xxh32.EngineOf(m, 0x9e3779b1), stripe + tail) == 0xd3aeeb25
  {
    Word16At0();
    Word16At4();
    Word16At8();
    Word16At12();
    Start16();
    StripeOf16(m, Xxh32.Init(0x9e3779b1), stripe);
    Converge16();
    Above16(m, 0x9e3779b1, stripe, tail, 27);
    Seeded16Tail11(m, tail);
  }

  /** No bytes and 11 bytes, and with a seed 27 bytes. */
  lemma Xxh32Answers()
    ensures Proper(Xxh32.Xxh32Engine(0)) && Proper(Xxh32.Xxh32Engine(0x9e3779b1))
    ensures Hash(Xxh32.Xxh32Engine(0), []) == 0x02cc5d05
    ensures Hash(Xxh32.Xxh32Engine(0), TAIL16) == 0xe3d23a11
    ensures Hash(Xxh32.Xxh32Engine(0x9e3779b1), STRIPE16 + TAIL16) == 0xd3aeeb25
  {
    Steps16Known();
    EmptyOf16(Xxh32.STEPS);
    ShortOf16(Xxh32.STEPS, TAIL16);
    LongOf16(Xxh32.STEPS, STRIPE16, TAIL16);
  }

  // ----- XXH64

  const STRIPE32: Bytes :=
    [0x7c, 0x01, 0x81, 0x2c, 0xf7, 0x21, 0xad, 0x1c, 0xde, 0xd4, 0x6d, 0xe9, 0x83, 0x90, 0x97, 0xdb]
    + [0x72, 0x40, 0xa4, 0xa4, 0xb7, 0xb3, 0x67, 0x1f, 0xcb, 0x79, 0xe6, 0x4e, 0xcc, 0xc0, 0xe5, 0x78]
  const TAIL32: Bytes := [0x82, 0x5a, 0xd0, 0x7d, 0xcc, 0xff, 0x72, 0x21, 0xb8, 0x08, 0x46, 0x74, 0xf7, 0x43, 0x24]

  /** What the steps make of the words the answers meet. */
  ghost predicate KnownXxh64(m: Xxh64.Steps) {
    && m.round(0xff21a1a033ac8063, 0x1cad21f72c81017c) == 0xcd6026b18aa92cc2
    && m.round(0x60ea27eeadc0b5dc, 0xdb979083e96dd4de) == 0xff53232b6d0543af
    && m.round(0x9e3779b185ebca8d, 0x1f67b3b7a4a44072) == 0x9b1ba68a5befa5c0
    && m.round(0x0000000000000006, 0x78e5c0cc4ee679cb) == 0xc688048402c7d467
    && m.merge(0x10ca93f7e3ef5555, 0xcd6026b18aa92cc2) == 0x913608bc5ed8d9bb
    && m.merge(0x913608bc5ed8d9bb, 0xff53232b6d0543af) == 0x8262ad821985ad8c
    && m.merge(0x8262ad821985ad8c, 0x9b1ba68a5befa5c0) == 0xc2d7613f6b7d222d
    && m.merge(0xc2d7613f6b7d222d, 0xc688048402c7d467) == 0x44c9554602017824
    && m.addLen(0x44c9554602017824, 47) == 0x44c9554602017853
    && m.addLen(0x27d4eb2f165667c5, 15) == 0x27d4eb2f165667d4
    && m.addLen(0x27d4eb2f165667c5, 0) == 0x27d4eb2f165667c5
    && m.eight(0x44c9554602017853, 0x2172ffcc7dd05a82) == 0xfcade1c761a6895d
    && m.four(0xfcade1c761a6895d, 0x00000000744608b8) == 0x84964ddb413f533c
    && m.one(0x84964ddb413f533c, 0xf7) == 0x88ba753a7fc1cce1
    && m.one(0x88ba753a7fc1cce1, 0x43) == 0xe6751403da1311e0
    && m.one(0xe6751403da1311e0, 0x24) == 0xf5e3e13c386d51e4
    && m.avalanche(0xf5e3e13c386d51e4) == 0x5bf52ce5caf11966
    && m.eight(0x27d4eb2f165667d4, 0x2172ffcc7dd05a82) == 0x74a558fad8bf60c6
    && m.four(0x74a558fad8bf60c6, 0x00000000744608b8) == 0xfd5cdccf1ca6f0b8
    && m.one(0xfd5cdccf1ca6f0b8, 0xf7) == 0x6e53ab339b9f8eaf
    && m.one(0x6e53ab339b9f8eaf, 0x43) == 0xe5dc2b59df063221
    && m.one(0xe5dc2b59df063221, 0x24) == 0x042fd665a6b92da7
    && m.avalanche(0x042fd665a6b92da7) == 0x9460be16476576ee
    && m.avalanche(0x27d4eb2f165667c5) == 0xef46db3751d8e999
  }

  lemma Step32No0() ensures Xxh64.Round(0xff21a1a033ac8063, 0x1cad21f72c81017c) == 0xcd6026b18aa92cc2 { }

  lemma Step32No1() ensures Xxh64.Round(0x60ea27eeadc0b5dc, 0xdb979083e96dd4de) == 0xff53232b6d0543af { }

  lemma Step32No2() ensures Xxh64.Round(0x9e3779b185ebca8d, 0x1f67b3b7a4a44072) == 0x9b1ba68a5befa5c0 { }

  lemma Step32No3() ensures Xxh64.Round(0x0000000000000006, 0x78e5c0cc4ee679cb) == 0xc688048402c7d467 { }

  lemma Step32No4() ensures Xxh64.MergeRound(0x10ca93f7e3ef5555, 0xcd6026b18aa92cc2) == 0x913608bc5ed8d9bb { }

  lemma Step32No5() ensures Xxh64.MergeRound(0x913608bc5ed8d9bb, 0xff53232b6d0543af) == 0x8262ad821985ad8c { }

  lemma Step32No6() ensures Xxh64.MergeRound(0x8262ad821985ad8c, 0x9b1ba68a5befa5c0) == 0xc2d7613f6b7d222d { }

  lemma Step32No7() ensures Xxh64.MergeRound(0xc2d7613f6b7d222d, 0xc688048402c7d467) == 0x44c9554602017824 { }

  lemma Step32No8() ensures Xxh64.AddLen(0x44c9554602017824, 47) == 0x44c9554602017853 { }

  lemma Step32No9() ensures Xxh64.AddLen(0x27d4eb2f165667c5, 15) == 0x27d4eb2f165667d4 { }

  lemma Step32No10() ensures Xxh64.AddLen(0x27d4eb2f165667c5, 0) == 0x27d4eb2f165667c5 { }

  lemma Step32No11() ensures Xxh64.Eight(0x44c9554602017853, 0x2172ffcc7dd05a82) == 0xfcade1c761a6895d { }

  lemma Step32No12() ensures Xxh64.Four(0xfcade1c761a6895d, 0x00000000744608b8) == 0x84964ddb413f533c { }

  lemma Step32No13() ensures Xxh64.One(0x84964ddb413f533c, 0xf7) == 0x88ba753a7fc1cce1 { }

  lemma Step32No14() ensures Xxh64.One(0x88ba753a7fc1cce1, 0x43) == 0xe6751403da1311e0 { }

  lemma Step32No15() ensures Xxh64.One(0xe6751403da1311e0, 0x24) == 0xf5e3e13c386d51e4 { }

  lemma Step32No16() ensures Xxh64.Avalanche(0xf5e3e13c386d51e4) == 0x5bf52ce5caf11966 { }

  lemma Step32No17() ensures Xxh64.Eight(0x27d4eb2f165667d4, 0x2172ffcc7dd05a82) == 0x74a558fad8bf60c6 { }

  lemma Step32No18() ensures Xxh64.Four(0x74a558fad8bf60c6, 0x00000000744608b8) == 0xfd5cdccf1ca6f0b8 { }

  lemma Step32No19() ensures Xxh64.One(0xfd5cdccf1ca6f0b8, 0xf7) == 0x6e53ab339b9f8eaf { }

  lemma Step32No20() ensures Xxh64.One(0x6e53ab339b9f8eaf, 0x43) == 0xe5dc2b59df063221 { }

  lemma Step32No21() ensures Xxh64.One(0xe5dc2b59df063221, 0x24) == 0x042fd665a6b92da7 { }

  lemma Step32No22() ensures Xxh64.Avalanche(0x042fd665a6b92da7) == 0x9460be16476576ee { }

  lemma Step32No23() ensures Xxh64.Avalanche(0x27d4eb2f165667c5) == 0xef46db3751d8e999 { }

  lemma Steps32Known()
    ensures KnownXxh64(Xxh64.STEPS)
  {
    Step32No0();
    Step32No1();
    Step32No2();
    Step32No3();
    Step32No4();
    Step32No5();
    Step32No6();
    Step32No7();
    Step32No8();
    Step32No9();
    Step32No10();
    Step32No11();
    Step32No12();
    Step32No13();
    Step32No14();
    Step32No15();
    Step32No16();
    Step32No17();
    Step32No18();
    Step32No19();
    Step32No20();
    Step32No21();
    Step32No22();
    Step32No23();
  }

  lemma Word32At0() ensures Xxh64.ReadLE64(STRIPE32, 0) == 0x1cad21f72c81017c { }

  lemma Word32At8() ensures Xxh64.ReadLE64(STRIPE32, 8) == 0xdb979083e96dd4de { }

  lemma Word32At16() ensures Xxh64.ReadLE64(STRIPE32, 16) == 0x1f67b3b7a4a44072 { }

  lemma Word32At24() ensures Xxh64.ReadLE64(STRIPE32, 24) == 0x78e5c0cc4ee679cb { }

  lemma StripeOf32(m: Xxh64.Steps, v: Xxh64.Lanes, s: Bytes)
    requires KnownXxh64(m) && |s| == 32 && v == Xxh64.Lanes(0xff21a1a033ac8063, 0x60ea27eeadc0b5dc, 0x9e3779b185ebca8d, 0x0000000000000006)
    requires Xxh64.ReadLE64(s, 0) == 0x1cad21f72c81017c
    requires Xxh64.ReadLE64(s, 8) == 0xdb979083e96dd4de
    requires Xxh64.ReadLE64(s, 16) == 0x1f67b3b7a4a44072
    requires Xxh64.ReadLE64(s, 24) == 0x78e5c0cc4ee679cb
    ensures Xxh64.Stripe(m, v, s) == Xxh64.Lanes(0xcd6026b18aa92cc2, 0xff53232b6d0543af, 0x9b1ba68a5befa5c0, 0xc688048402c7d467)
  {
  }

  lemma Start32()
    ensures Xxh64.Init(0x9e3779b185ebca8d) == Xxh64.Lanes(0xff21a1a033ac8063, 0x60ea27eeadc0b5dc, 0x9e3779b185ebca8d, 0x0000000000000006)
  {
  }

  lemma Converge32(m: Xxh64.Steps)
    requires KnownXxh64(m)
    ensures Xxh64.Converge(m, Xxh64.Lanes(0xcd6026b18aa92cc2, 0xff53232b6d0543af, 0x9b1ba68a5befa5c0, 0xc688048402c7d467)) == 0x44c9554602017824
  {
  }

  /** The tail after the stripe, and the tail alone. */
  lemma Seeded32Tail0(m: Xxh64.Steps, tail: Bytes)
    requires KnownXxh64(m) && tail == []
    ensures Xxh64.Finalize(m, 0xf5e3e13c386d51e4, tail) == 0x5bf52ce5caf11966
  {
  }

  lemma Seeded32Tail1(m: Xxh64.Steps, tail: Bytes)
    requires KnownXxh64(m) && tail == [0x24]
    ensures Xxh64.Finalize(m, 0xe6751403da1311e0, tail) == 0x5bf52ce5caf11966
  {
    assert tail[1..] == [];
    Seeded32Tail0(m, tail[1..]);
  }

  lemma Seeded32Tail2(m: Xxh64.Steps, tail: Bytes)
    requires KnownXxh64(m) && tail == [0x43, 0x24]
    ensures Xxh64.Finalize(m, 0x88ba753a7fc1cce1, tail) == 0x5bf52ce5caf11966
  {
    assert tail[1..] == [0x24];
    Seeded32Tail1(m, tail[1..]);
  }

  lemma Seeded32Tail3(m: Xxh64.Steps, tail: Bytes)
    requires KnownXxh64(m) && tail == [0xf7, 0x43, 0x24]
    ensures Xxh64.Finalize(m, 0x84964ddb413f533c, tail) == 0x5bf52ce5caf11966
  {
    assert tail[1..] == [0x43, 0x24];
    Seeded32Tail2(m, tail[1..]);
  }

  lemma Seeded32Tail7(m: Xxh64.Steps, tail: Bytes)
    requires KnownXxh64(m) && tail == [0xb8, 0x08, 0x46, 0x74, 0xf7, 0x43, 0x24]
    ensures Xxh64.Finalize(m, 0xfcade1c761a6895d, tail) == 0x5bf52ce5caf11966
  {
    assert tail[4..] == [0xf7, 0x43, 0x24];
    Seeded32Tail3(m, tail[4..]);
  }

  lemma Seeded32Tail15(m: Xxh64.Steps, tail: Bytes)
    requires KnownXxh64(m) && tail == [0x82, 0x5a, 0xd0, 0x7d, 0xcc, 0xff, 0x72, 0x21, 0xb8, 0x08, 0x46, 0x74, 0xf7, 0x43, 0x24]
    ensures Xxh64.Finalize(m, 0x44c9554602017853, tail) == 0x5bf52ce5caf11966
  {
    assert tail[8..] == [0xb8, 0x08, 0x46, 0x74, 0xf7, 0x43, 0x24];
    Seeded32Tail7(m, tail[8..]);
  }

  lemma Short32Tail0(m: Xxh64.Steps, tail: Bytes)
    requires KnownXxh64(m) && tail == []
    ensures Xxh64.Finalize(m, 0x042fd665a6b92da7, tail) == 0x9460be16476576ee
  {
  }

  lemma Short32Tail1(m: Xxh64.Steps, tail: Bytes)
    requires KnownXxh64(m) && tail == [0x24]
    ensures Xxh64.Finalize(m, 0xe5dc2b59df063221, tail) == 0x9460be16476576ee
  {
    assert tail[1..] == [];
    Short32Tail0(m, tail[1..]);
  }

  lemma Short32Tail2(m: Xxh64.Steps, tail: Bytes)
    requires KnownXxh64(m) && tail == [0x43, 0x24]
    ensures Xxh64.Finalize(m, 0x6e53ab339b9f8eaf, tail) == 0x9460be16476576ee
  {
    assert tail[1..] == [0x24];
    Short32Tail1(m, tail[1..]);
  }

  lemma Short32Tail3(m: Xxh64.Steps, tail: Bytes)
    requires KnownXxh64(m) && tail == [0xf7, 0x43, 0x24]
    ensures Xxh64.Finalize(m, 0xfd5cdccf1ca6f0b8, tail) == 0x9460be16476576ee
  {
    assert tail[1..] == [0x43, 0x24];
    Short32Tail2(m, tail[1..]);
  }

  lemma Short32Tail7(m: Xxh64.Steps, tail: Bytes)
    requires KnownXxh64(m) && tail == [0xb8, 0x08, 0x46, 0x74, 0xf7, 0x43, 0x24]
    ensures Xxh64.Finalize(m, 0x74a558fad8bf60c6, tail) == 0x9460be16476576ee
  {
    assert tail[4..] == [0xf7, 0x43, 0x24];
    Short32Tail3(m, tail[4..]);
  }

  lemma Short32Tail15(m: Xxh64.Steps, tail: Bytes)
    requires KnownXxh64(m) && tail == [0x82, 0x5a, 0xd0, 0x7d, 0xcc, 0xff, 0x72, 0x21, 0xb8, 0x08, 0x46, 0x74, 0xf7, 0x43, 0x24]
    ensures Xxh64.Finalize(m, 0x27d4eb2f165667d4, tail) == 0x9460be16476576ee
  {
    assert tail[8..] == [0xb8, 0x08, 0x46, 0x74, 0xf7, 0x43, 0x24];
    Short32Tail7(m, tail[8..]);
  }

  lemma Empty32Tail0(m: Xxh64.Steps, tail: Bytes)
    requires KnownXxh64(m) && tail == []
    ensures Xxh64.Finalize(m, 0x27d4eb2f165667c5, tail) == 0xef46db3751d8e999
  {
  }

  lemma ProperOf32(m: Xxh64.Steps, seed: bv64)
    ensures Proper(Xxh64.EngineOf(m, seed)) && Xxh64.EngineOf(m, seed).width == 32
  {
    var e := Xxh64.EngineOf(m, seed);
    assert e.short(e.start) == Xxh64.Init(seed).v3 + Xxh64.PRIME64_5;
  }

  /** A hash from its parts. */
  lemma Below32(m: Xxh64.Steps, seed: bv64, data: Bytes, len: nat)
    requires |data| == len < 32
    ensures Proper(Xxh64.EngineOf(m, seed))
    ensures Hash(Xxh64.EngineOf(m, seed), data) == Xxh64.Finalize(m, m.addLen(seed + Xxh64.PRIME64_5, len), data)
  {
    ProperOf32(m, seed);
    BelowStripe(Xxh64.EngineOf(m, seed), data);
  }

  lemma Above32(m: Xxh64.Steps, seed: bv64, stripe: Bytes, tail: Bytes, len: nat)
    requires |stripe| == 32 && |tail| < 32 && len == 32 + |tail|
    ensures Proper(Xxh64.EngineOf(m, seed))
    ensures Hash(Xxh64.EngineOf(m, seed), stripe + tail)
      == Xxh64.Finalize(m, m.addLen(Xxh64.Converge(m, Xxh64.Stripe(m, Xxh64.Init(seed), stripe)), len), tail)
  {
    ProperOf32(m, seed);
    OneStripe(Xxh64.EngineOf(m, seed), stripe, tail);
  }

  lemma EmptyOf32(m: Xxh64.Steps)
    requires KnownXxh64(m)
    ensures Proper(Xxh64.EngineOf(m, 0)) && Hash(Xxh64.EngineOf(m, 0), []) == 0xef46db3751d8e999
  {
    Below32(m, 0, [], 0);
    Empty32Tail0(m, []);
  }

  lemma ShortOf32(m: Xxh64.Steps, tail: Bytes)
    requires KnownXxh64(m) && tail == TAIL32
    ensures Proper(Xxh64.EngineOf(m, 0)) && Hash(Xxh64.EngineOf(m, 0), tail) == 0x9460be16476576ee
  {
    Below32(m, 0, tail, 15);
    Short32Tail15(m, tail);
  }

  lemma LongOf32(m: Xxh64.Steps, stripe: Bytes, tail: Bytes)
    requires KnownXxh64(m) && stripe == STRIPE32 && tail == TAIL32
    ensures Proper(Xxh64.EngineOf(m, 0x9e3779b185ebca8d)) && Hash(Xxh64.EngineOf(m, 0x9e3779b185ebca8d), stripe + tail) == 0x5bf52ce5caf11966
  {
    Word32At0();
    Word32At8();
    Word32At16();
    Word32At24();
    Start32();
    StripeOf32(m, Xxh64.Init(0x9e3779b185ebca8d), stripe);
    Converge32(m);
    Above32(m, 0x9e3779b185ebca8d, stripe, tail, 47);
    Seeded32Tail15(m, tail);
  }

  /** No bytes and 15 bytes, and with a seed 47 bytes. */
  lemma Xxh64Answers()
    ensures Proper(Xxh64.Xxh64Engine(0)) && Proper(Xxh64.Xxh64Engine(0x9e3779b185ebca8d))
    ensures Hash(Xxh64.Xxh64Engine(0), []) == 0xef46db3751d8e999
    ensures Hash(Xxh64.Xxh64Engine(0), TAIL32) == 0x9460be16476576ee
    ensures Hash(Xxh64.Xxh64Engine(0x9e3779b185ebca8d), STRIPE32 + TAIL32) == 0x5bf52ce5caf11966
  {
    Steps32Known();
    EmptyOf32(Xxh64.STEPS);
    ShortOf32(Xxh64.STEPS, TAIL32);
    LongOf32(Xxh64.STEPS, STRIPE32, TAIL32);
  }
}
