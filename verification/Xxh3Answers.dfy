/** Known answers of XXH3, 64-bit, in every mode and for every length class. */
module Xxh3Answers {
  import opened Stripes
  import opened Xxh64
  import opened Xxh3Engine
  import opened Xxh3State
  import opened Xxh3Kernel
  import opened Xxh3Reads
  import opened Xxh3ShortAnswers
  import opened Xxh3LongAnswers

  /** A short input only meets the folding, and one of the two secrets. */
  lemma ShortHash(mixing: Mixing, scrambling: Scrambling, fold: Folding, data: Bytes, s: Bytes, seed: bv64, l: Bytes)
    requires |data| <= 240 && |s| >= SECRET_SIZE_MIN && |l| >= SECRET_SIZE_MIN
    ensures Hash(Xxh3With(mixing, scrambling, fold), data, s, seed, l) == Short(fold, data, s, seed)
  {
  }

  lemma Defaults(mixing: Mixing, scrambling: Scrambling, fold: Folding, data: Bytes)
    ensures Proper(Xxh3With(mixing, scrambling, fold))
    ensures Reference(Xxh3With(mixing, scrambling, fold), Default, data)
      == Hash(Xxh3With(mixing, scrambling, fold), data, K_SECRET, 0, K_SECRET)
  {
  }

  lemma Seeded(mixing: Mixing, scrambling: Scrambling, fold: Folding, data: Bytes, seed: bv64)
    requires seed != 0
    ensures Proper(Xxh3With(mixing, scrambling, fold))
    ensures Reference(Xxh3With(mixing, scrambling, fold), WithSeed(seed), data)
      == Hash(Xxh3With(mixing, scrambling, fold), data, K_SECRET, seed, DeriveSecret(seed))
  {
  }

  lemma Secret(mixing: Mixing, scrambling: Scrambling, fold: Folding, data: Bytes, secret: Bytes, seed: bv64)
    requires 136 <= |secret| <= 192
    ensures Proper(Xxh3With(mixing, scrambling, fold)) && ModeOk(WithSecret(secret)) && ModeOk(WithSecretAndSeed(secret, seed))
    ensures Reference(Xxh3With(mixing, scrambling, fold), WithSecret(secret), data)
      == Hash(Xxh3With(mixing, scrambling, fold), data, secret, 0, secret)
    ensures Reference(Xxh3With(mixing, scrambling, fold), WithSecretAndSeed(secret, seed), data)
      == Hash(Xxh3With(mixing, scrambling, fold), data, K_SECRET, seed, secret)
  {
  }

  /** The multiplications of XXH3 are what the answers take them to be. */
  ghost predicate Right(mixing: Mixing, scrambling: Scrambling, fold: Folding) {
    Mixes(mixing) && Scrambles(scrambling) && Known(fold) && Foldings(fold)
  }

  lemma RightOnes()
    ensures Right(MixWords, ScrambleLane, Fold64)
  {
    MixKnown();
    ScrambleKnown();
    FoldKnown();
    FoldingsKnown();
  }

  // ----- zeros, at both ends of every length class

  lemma ZeroAnswer0(mixing: Mixing, scrambling: Scrambling, fold: Folding, data: Bytes)
    requires Right(mixing, scrambling, fold) && |data| == 0
    ensures Proper(Xxh3With(mixing, scrambling, fold))
    ensures Reference(Xxh3With(mixing, scrambling, fold), Default, data) == 0x2d06800538d394c2
  {
    SecretIs();
    Defaults(mixing, scrambling, fold, data);
    ShortHash(mixing, scrambling, fold, data, K_SECRET, 0, K_SECRET);
    Zero0(fold, data, K_SECRET);
  }

  lemma ZeroAnswer1(mixing: Mixing, scrambling: Scrambling, fold: Folding, data: Bytes)
    requires Right(mixing, scrambling, fold) && AllZero(data) && |data| == 1
    ensures Proper(Xxh3With(mixing, scrambling, fold))
    ensures Reference(Xxh3With(mixing, scrambling, fold), Default, data) == 0xc44bdff4074eecdb
  {
    SecretIs();
    Defaults(mixing, scrambling, fold, data);
    ShortHash(mixing, scrambling, fold, data, K_SECRET, 0, K_SECRET);
    Zero1(fold, data, K_SECRET);
  }

  lemma ZeroAnswer3(mixing: Mixing, scrambling: Scrambling, fold: Folding, data: Bytes)
    requires Right(mixing, scrambling, fold) && AllZero(data) && |data| == 3
    ensures Proper(Xxh3With(mixing, scrambling, fold))
    ensures Reference(Xxh3With(mixing, scrambling, fold), Default, data) == 0xeb5d658bb22f286b
  {
    SecretIs();
    Defaults(mixing, scrambling, fold, data);
    ShortHash(mixing, scrambling, fold, data, K_SECRET, 0, K_SECRET);
    Zero3(fold, data, K_SECRET);
  }

  lemma ZeroAnswer4(mixing: Mixing, scrambling: Scrambling, fold: Folding, data: Bytes)
    requires Right(mixing, scrambling, fold) && AllZero(data) && |data| == 4
    ensures Proper(Xxh3With(mixing, scrambling, fold))
    ensures Reference(Xxh3With(mixing, scrambling, fold), Default, data) == 0x48b2c92616fc193d
  {
    SecretIs();
    Defaults(mixing, scrambling, fold, data);
    ShortHash(mixing, scrambling, fold, data, K_SECRET, 0, K_SECRET);
    Zero4(fold, data, K_SECRET);
  }

  lemma ZeroAnswer8(mixing: Mixing, scrambling: Scrambling, fold: Folding, data: Bytes)
    requires Right(mixing, scrambling, fold) && AllZero(data) && |data| == 8
    ensures Proper(Xxh3With(mixing, scrambling, fold))
    ensures Reference(Xxh3With(mixing, scrambling, fold), Default, data) == 0xc77b3abb6f87acd9
  {
    SecretIs();
    Defaults(mixing, scrambling, fold, data);
    ShortHash(mixing, scrambling, fold, data, K_SECRET, 0, K_SECRET);
    Zero8(fold, data, K_SECRET);
  }

  lemma ZeroAnswer9(mixing: Mixing, scrambling: Scrambling, fold: Folding, data: Bytes)
    requires Right(mixing, scrambling, fold) && AllZero(data) && |data| == 9
    ensures Proper(Xxh3With(mixing, scrambling, fold))
    ensures Reference(Xxh3With(mixing, scrambling, fold), Default, data) == 0x34499569f0391857
  {
    SecretIs();
    Defaults(mixing, scrambling, fold, data);
    ShortHash(mixing, scrambling, fold, data, K_SECRET, 0, K_SECRET);
    Zero9(fold, data, K_SECRET);
  }

  lemma ZeroAnswer16(mixing: Mixing, scrambling: Scrambling, fold: Folding, data: Bytes)
    requires Right(mixing, scrambling, fold) && AllZero(data) && |data| == 16
    ensures Proper(Xxh3With(mixing, scrambling, fold))
    ensures Reference(Xxh3With(mixing, scrambling, fold), Default, data) == 0xd0a66a65c7528968
  {
    SecretIs();
    Defaults(mixing, scrambling, fold, data);
    ShortHash(mixing, scrambling, fold, data, K_SECRET, 0, K_SECRET);
    Zero16(fold, data, K_SECRET);
  }

  lemma ZeroAnswer17(mixing: Mixing, scrambling: Scrambling, fold: Folding, data: Bytes)
    requires Right(mixing, scrambling, fold) && AllZero(data) && |data| == 17
    ensures Proper(Xxh3With(mixing, scrambling, fold))
    ensures Reference(Xxh3With(mixing, scrambling, fold), Default, data) == 0xc2915ca0df7ad4c1
  {
    SecretIs();
    Defaults(mixing, scrambling, fold, data);
    ShortHash(mixing, scrambling, fold, data, K_SECRET, 0, K_SECRET);
    Zero17(fold, data, K_SECRET);
  }

  lemma ZeroAnswer32(mixing: Mixing, scrambling: Scrambling, fold: Folding, data: Bytes)
    requires Right(mixing, scrambling, fold) && AllZero(data) && |data| == 32
    ensures Proper(Xxh3With(mixing, scrambling, fold))
    ensures Reference(Xxh3With(mixing, scrambling, fold), Default, data) == 0xa057271c9071c99d
  {
    SecretIs();
    Defaults(mixing, scrambling, fold, data);
    ShortHash(mixing, scrambling, fold, data, K_SECRET, 0, K_SECRET);
    Zero32(fold, data, K_SECRET);
  }

  lemma ZeroAnswer33(mixing: Mixing, scrambling: Scrambling, fold: Folding, data: Bytes)
    requires Right(mixing, scrambling, fold) && AllZero(data) && |data| == 33
    ensures Proper(Xxh3With(mixing, scrambling, fold))
    ensures Reference(Xxh3With(mixing, scrambling, fold), Default, data) == 0xb04859b19481d612
  {
    SecretIs();
    Defaults(mixing, scrambling, fold, data);
    ShortHash(mixing, scrambling, fold, data, K_SECRET, 0, K_SECRET);
    Zero33(fold, data, K_SECRET);
  }

  lemma ZeroAnswer64(mixing: Mixing, scrambling: Scrambling, fold: Folding, data: Bytes)
    requires Right(mixing, scrambling, fold) && AllZero(data) && |data| == 64
    ensures Proper(Xxh3With(mixing, scrambling, fold))
    ensures Reference(Xxh3With(mixing, scrambling, fold), Default, data) == 0x2ffb6918c12c256e
  {
    SecretIs();
    Defaults(mixing, scrambling, fold, data);
    ShortHash(mixing, scrambling, fold, data, K_SECRET, 0, K_SECRET);
    Zero64(fold, data, K_SECRET);
  }

  lemma ZeroAnswer65(mixing: Mixing, scrambling: Scrambling, fold: Folding, data: Bytes)
    requires Right(mixing, scrambling, fold) && AllZero(data) && |data| == 65
    ensures Proper(Xxh3With(mixing, scrambling, fold))
    ensures Reference(Xxh3With(mixing, scrambling, fold), Default, data) == 0x366a5eb034af8f31
  {
    SecretIs();
    Defaults(mixing, scrambling, fold, data);
    ShortHash(mixing, scrambling, fold, data, K_SECRET, 0, K_SECRET);
    Zero65(fold, data, K_SECRET);
  }

  lemma ZeroAnswer96(mixing: Mixing, scrambling: Scrambling, fold: Folding, data: Bytes)
    requires Right(mixing, scrambling, fold) && AllZero(data) && |data| == 96
    ensures Proper(Xxh3With(mixing, scrambling, fold))
    ensures Reference(Xxh3With(mixing, scrambling, fold), Default, data) == 0xea99cbf87674b914
  {
    SecretIs();
    Defaults(mixing, scrambling, fold, data);
    ShortHash(mixing, scrambling, fold, data, K_SECRET, 0, K_SECRET);
    Zero96(fold, data, K_SECRET);
  }

  lemma ZeroAnswer97(mixing: Mixing, scrambling: Scrambling, fold: Folding, data: Bytes)
    requires Right(mixing, scrambling, fold) && AllZero(data) && |data| == 97
    ensures Proper(Xxh3With(mixing, scrambling, fold))
    ensures Reference(Xxh3With(mixing, scrambling, fold), Default, data) == 0xf6cf4c7db61c3b63
  {
    SecretIs();
    Defaults(mixing, scrambling, fold, data);
    ShortHash(mixing, scrambling, fold, data, K_SECRET, 0, K_SECRET);
    Zero97(fold, data, K_SECRET);
  }

  lemma ZeroAnswer128(mixing: Mixing, scrambling: Scrambling, fold: Folding, data: Bytes)
    requires Right(mixing, scrambling, fold) && AllZero(data) && |data| == 128
    ensures Proper(Xxh3With(mixing, scrambling, fold))
    ensures Reference(Xxh3With(mixing, scrambling, fold), Default, data) == 0x093c29f27ecfcf21
  {
    SecretIs();
    Defaults(mixing, scrambling, fold, data);
    ShortHash(mixing, scrambling, fold, data, K_SECRET, 0, K_SECRET);
    Zero128(fold, data, K_SECRET);
  }

  lemma ZeroAnswer129(mixing: Mixing, scrambling: Scrambling, fold: Folding, data: Bytes)
    requires Right(mixing, scrambling, fold) && AllZero(data) && |data| == 129
    ensures Proper(Xxh3With(mixing, scrambling, fold))
    ensures Reference(Xxh3With(mixing, scrambling, fold), Default, data) == 0x37f7943eb2f51359
  {
    SecretIs();
    Defaults(mixing, scrambling, fold, data);
    ShortHash(mixing, scrambling, fold, data, K_SECRET, 0, K_SECRET);
    Zero129(fold, data, K_SECRET);
  }

  lemma ZeroAnswer240(mixing: Mixing, scrambling: Scrambling, fold: Folding, data: Bytes)
    requires Right(mixing, scrambling, fold) && AllZero(data) && |data| == 240
    ensures Proper(Xxh3With(mixing, scrambling, fold))
    ensures Reference(Xxh3With(mixing, scrambling, fold), Default, data) == 0x053f07444f70da08
  {
    SecretIs();
    Defaults(mixing, scrambling, fold, data);
    ShortHash(mixing, scrambling, fold, data, K_SECRET, 0, K_SECRET);
    Zero240(fold, data, K_SECRET);
  }

  lemma ZeroAnswer241(mixing: Mixing, scrambling: Scrambling, fold: Folding, data: Bytes)
    requires Right(mixing, scrambling, fold) && AllZero(data) && |data| == 241
    ensures Proper(Xxh3With(mixing, scrambling, fold))
    ensures Reference(Xxh3With(mixing, scrambling, fold), Default, data) == 0x5c5b5d5d40c59ce3
  {
    SecretIs();
    Defaults(mixing, scrambling, fold, data);
    ZeroLong(mixing, scrambling, fold, data, K_SECRET, K_SECRET, 0);
  }

  lemma ZerosAreZero(n: nat)
    ensures AllZero(Zeros(n)) && |Zeros(n)| == n
  {
  }

  /** Inputs of zeros, under the default secret: the empty one, and the first and the last of every class. */
  lemma ZeroAnswersTo33()
    ensures Proper(Xxh3())
    ensures Reference(Xxh3(), Default, Zeros(0)) == 0x2d06800538d394c2
    ensures Reference(Xxh3(), Default, Zeros(1)) == 0xc44bdff4074eecdb
    ensures Reference(Xxh3(), Default, Zeros(3)) == 0xeb5d658bb22f286b
    ensures Reference(Xxh3(), Default, Zeros(4)) == 0x48b2c92616fc193d
    ensures Reference(Xxh3(), Default, Zeros(8)) == 0xc77b3abb6f87acd9
    ensures Reference(Xxh3(), Default, Zeros(9)) == 0x34499569f0391857
    ensures Reference(Xxh3(), Default, Zeros(16)) == 0xd0a66a65c7528968
    ensures Reference(Xxh3(), Default, Zeros(17)) == 0xc2915ca0df7ad4c1
    ensures Reference(Xxh3(), Default, Zeros(32)) == 0xa057271c9071c99d
    ensures Reference(Xxh3(), Default, Zeros(33)) == 0xb04859b19481d612
  {
    RightOnes();
    ZerosAreZero(0);
    ZeroAnswer0(MixWords, ScrambleLane, Fold64, Zeros(0));
    ZerosAreZero(1);
    ZeroAnswer1(MixWords, ScrambleLane, Fold64, Zeros(1));
    ZerosAreZero(3);
    ZeroAnswer3(MixWords, ScrambleLane, Fold64, Zeros(3));
    ZerosAreZero(4);
    ZeroAnswer4(MixWords, ScrambleLane, Fold64, Zeros(4));
    ZerosAreZero(8);
    ZeroAnswer8(MixWords, ScrambleLane, Fold64, Zeros(8));
    ZerosAreZero(9);
    ZeroAnswer9(MixWords, ScrambleLane, Fold64, Zeros(9));
    ZerosAreZero(16);
    ZeroAnswer16(MixWords, ScrambleLane, Fold64, Zeros(16));
    ZerosAreZero(17);
    ZeroAnswer17(MixWords, ScrambleLane, Fold64, Zeros(17));
    ZerosAreZero(32);
    ZeroAnswer32(MixWords, ScrambleLane, Fold64, Zeros(32));
    ZerosAreZero(33);
    ZeroAnswer33(MixWords, ScrambleLane, Fold64, Zeros(33));
  }

  /** And the classes from 64 bytes on, up to the first input the stripes take. */
  lemma ZeroAnswersFrom64()
    ensures Proper(Xxh3())
    ensures Reference(Xxh3(), Default, Zeros(64)) == 0x2ffb6918c12c256e
    ensures Reference(Xxh3(), Default, Zeros(65)) == 0x366a5eb034af8f31
    ensures Reference(Xxh3(), Default, Zeros(96)) == 0xea99cbf87674b914
    ensures Reference(Xxh3(), Default, Zeros(97)) == 0xf6cf4c7db61c3b63
    ensures Reference(Xxh3(), Default, Zeros(128)) == 0x093c29f27ecfcf21
    ensures Reference(Xxh3(), Default, Zeros(129)) == 0x37f7943eb2f51359
    ensures Reference(Xxh3(), Default, Zeros(240)) == 0x053f07444f70da08
    ensures Reference(Xxh3(), Default, Zeros(241)) == 0x5c5b5d5d40c59ce3
  {
    RightOnes();
    ZerosAreZero(64);
    ZeroAnswer64(MixWords, ScrambleLane, Fold64, Zeros(64));
    ZerosAreZero(65);
    ZeroAnswer65(MixWords, ScrambleLane, Fold64, Zeros(65));
    ZerosAreZero(96);
    ZeroAnswer96(MixWords, ScrambleLane, Fold64, Zeros(96));
    ZerosAreZero(97);
    ZeroAnswer97(MixWords, ScrambleLane, Fold64, Zeros(97));
    ZerosAreZero(128);
    ZeroAnswer128(MixWords, ScrambleLane, Fold64, Zeros(128));
    ZerosAreZero(129);
    ZeroAnswer129(MixWords, ScrambleLane, Fold64, Zeros(129));
    ZerosAreZero(240);
    ZeroAnswer240(MixWords, ScrambleLane, Fold64, Zeros(240));
    ZerosAreZero(241);
    ZeroAnswer241(MixWords, ScrambleLane, Fold64, Zeros(241));
  }

  // ----- inputs that vary

  lemma AbAnswer(mixing: Mixing, scrambling: Scrambling, fold: Folding, data: Bytes)
    requires Right(mixing, scrambling, fold) && data == [0x61, 0x62]
    ensures Proper(Xxh3With(mixing, scrambling, fold))
    ensures Reference(Xxh3With(mixing, scrambling, fold), Default, data) == 0xa873719c24d5735c
  {
    SecretIs();
    Defaults(mixing, scrambling, fold, data);
    ShortHash(mixing, scrambling, fold, data, K_SECRET, 0, K_SECRET);
    TextAb(fold, data, K_SECRET);
  }

  lemma SeededEmpty(mixing: Mixing, scrambling: Scrambling, fold: Folding, data: Bytes)
    requires Right(mixing, scrambling, fold) && data == []
    ensures Proper(Xxh3With(mixing, scrambling, fold))
    ensures Reference(Xxh3With(mixing, scrambling, fold), WithSeed(SEED), data) == 0xa8a6b918b2f0364a
  {
    SecretIs();
    Seeded(mixing, scrambling, fold, data, SEED);
    ShortHash(mixing, scrambling, fold, data, K_SECRET, SEED, DeriveSecret(SEED));
    Empty(fold, data, K_SECRET);
  }

  lemma Seeded3(mixing: Mixing, scrambling: Scrambling, fold: Folding, data: Bytes)
    requires Right(mixing, scrambling, fold) && data == [0x7c, 0x01, 0x81]
    ensures Proper(Xxh3With(mixing, scrambling, fold))
    ensures Reference(Xxh3With(mixing, scrambling, fold), WithSeed(SEED), data) == 0x044ffc26bf955368
  {
    SecretIs();
    Seeded(mixing, scrambling, fold, data, SEED);
    ShortHash(mixing, scrambling, fold, data, K_SECRET, SEED, DeriveSecret(SEED));
    Three(fold, data, K_SECRET);
  }

  lemma Seeded7(mixing: Mixing, scrambling: Scrambling, fold: Folding, data: Bytes)
    requires Right(mixing, scrambling, fold) && data == [0x7c, 0x01, 0x81, 0x2c, 0xf7, 0x21, 0xad]
    ensures Proper(Xxh3With(mixing, scrambling, fold))
    ensures Reference(Xxh3With(mixing, scrambling, fold), WithSeed(SEED), data) == 0xa97212b33ed62fdf
  {
    SecretIs();
    Seeded(mixing, scrambling, fold, data, SEED);
    ShortHash(mixing, scrambling, fold, data, K_SECRET, SEED, DeriveSecret(SEED));
    Seven(fold, data, K_SECRET);
  }

  lemma Seeded13(mixing: Mixing, scrambling: Scrambling, fold: Folding, data: Bytes)
    requires Right(mixing, scrambling, fold) && |data| == 13 && IsSample(data) && ReadLE64(data, 5) == 0x83e96dd4de1cad21
    ensures Proper(Xxh3With(mixing, scrambling, fold))
    ensures Reference(Xxh3With(mixing, scrambling, fold), WithSeed(SEED), data) == 0xfa8f2aa547758baf
  {
    SecretIs();
    Seeded(mixing, scrambling, fold, data, SEED);
    ShortHash(mixing, scrambling, fold, data, K_SECRET, SEED, DeriveSecret(SEED));
    Sample13(fold, data, K_SECRET);
  }

  lemma Seeded120(mixing: Mixing, scrambling: Scrambling, fold: Folding, data: Bytes)
    requires Right(mixing, scrambling, fold) && |data| == 120 && IsSample(data)
    ensures Proper(Xxh3With(mixing, scrambling, fold))
    ensures Reference(Xxh3With(mixing, scrambling, fold), WithSeed(SEED), data) == 0x854e3e9f4fa63998
  {
    SecretIs();
    Seeded(mixing, scrambling, fold, data, SEED);
    ShortHash(mixing, scrambling, fold, data, K_SECRET, SEED, DeriveSecret(SEED));
    Sample120(fold, data, K_SECRET);
  }

  lemma Seeded144(mixing: Mixing, scrambling: Scrambling, fold: Folding, data: Bytes)
    requires Right(mixing, scrambling, fold) && |data| == 144 && IsSample(data)
    ensures Proper(Xxh3With(mixing, scrambling, fold))
    ensures Reference(Xxh3With(mixing, scrambling, fold), WithSeed(SEED), data) == 0x964ec30c6889f340
  {
    SecretIs();
    Seeded(mixing, scrambling, fold, data, SEED);
    ShortHash(mixing, scrambling, fold, data, K_SECRET, SEED, DeriveSecret(SEED));
    Sample144(fold, data, K_SECRET);
  }

  lemma Default248(mixing: Mixing, scrambling: Scrambling, fold: Folding, data: Bytes)
    requires Right(mixing, scrambling, fold) && FourParts(data, K_SECRET)
    ensures Proper(Xxh3With(mixing, scrambling, fold))
    ensures Reference(Xxh3With(mixing, scrambling, fold), Default, data) == 0x0af6ca9c8b6923f0
  {
    Defaults(mixing, scrambling, fold, data);
    SampleLong(mixing, scrambling, fold, data, K_SECRET, K_SECRET, 0);
  }

  lemma SampleReads13(k: Bytes)
    requires IsSecret(k)
    ensures IsSample(Sample(k, 13)) && ReadLE64(Sample(k, 13), 5) == 0x83e96dd4de1cad21
  {
    SampleIs(k, 13);
    SampleRead(k, 13, 5, 13);
    Secret13(k);
  }

  /** Short inputs: the text "ab", and with a seed none, three and seven bytes. */
  lemma TextAnswers()
    ensures Proper(Xxh3())
    ensures Reference(Xxh3(), Default, [0x61, 0x62]) == 0xa873719c24d5735c
    ensures Reference(Xxh3(), WithSeed(SEED), []) == 0xa8a6b918b2f0364a
    ensures Reference(Xxh3(), WithSeed(SEED), [0x7c, 0x01, 0x81]) == 0x044ffc26bf955368
    ensures Reference(Xxh3(), WithSeed(SEED), [0x7c, 0x01, 0x81, 0x2c, 0xf7, 0x21, 0xad]) == 0xa97212b33ed62fdf
  {
    RightOnes();
    AbAnswer(MixWords, ScrambleLane, Fold64, [0x61, 0x62]);
    SeededEmpty(MixWords, ScrambleLane, Fold64, []);
    Seeded3(MixWords, ScrambleLane, Fold64, [0x7c, 0x01, 0x81]);
    Seeded7(MixWords, ScrambleLane, Fold64, [0x7c, 0x01, 0x81, 0x2c, 0xf7, 0x21, 0xad]);
  }

  /** And longer ones: parts of the default secret written twice. */
  lemma SampleAnswers()
    ensures Proper(Xxh3()) && |K_SECRET| == 192
    ensures Reference(Xxh3(), WithSeed(SEED), Sample(K_SECRET, 13)) == 0xfa8f2aa547758baf
    ensures Reference(Xxh3(), WithSeed(SEED), Sample(K_SECRET, 120)) == 0x854e3e9f4fa63998
  {
    RightOnes();
    SecretIs();
    SampleReads13(K_SECRET);
    Seeded13(MixWords, ScrambleLane, Fold64, Sample(K_SECRET, 13));
    SampleIs(K_SECRET, 120);
    Seeded120(MixWords, ScrambleLane, Fold64, Sample(K_SECRET, 120));
  }

  lemma LongerSampleAnswers()
    ensures Proper(Xxh3()) && |K_SECRET| == 192
    ensures Reference(Xxh3(), WithSeed(SEED), Sample(K_SECRET, 144)) == 0x964ec30c6889f340
  {
    RightOnes();
    SecretIs();
    SampleIs(K_SECRET, 144);
    Seeded144(MixWords, ScrambleLane, Fold64, Sample(K_SECRET, 144));
  }

  lemma LongSampleAnswer()
    ensures Proper(Xxh3()) && |K_SECRET| == 192
    ensures Reference(Xxh3(), Default, Sample(K_SECRET, 248)) == 0x0af6ca9c8b6923f0
  {
    RightOnes();
    SecretIs();
    SampleHasParts(K_SECRET);
    Default248(MixWords, ScrambleLane, Fold64, Sample(K_SECRET, 248));
  }

  // ----- a secret of the user's, and the secret of a seed

  lemma OwnAnswer(mixing: Mixing, scrambling: Scrambling, fold: Folding, data: Bytes, own: Bytes, seed: bv64)
    requires Right(mixing, scrambling, fold) && |K_SECRET| == 192 && own == K_SECRET[56..] && AllZero(data) && |data| == 577
    ensures Proper(Xxh3With(mixing, scrambling, fold)) && ModeOk(WithSecret(own)) && ModeOk(WithSecretAndSeed(own, seed))
    ensures Reference(Xxh3With(mixing, scrambling, fold), WithSecret(own), data) == 0xdb51fc69d62fa9f5
    ensures Reference(Xxh3With(mixing, scrambling, fold), WithSecretAndSeed(own, seed), data) == 0xdb51fc69d62fa9f5
  {
    SecretIs();
    Secret(mixing, scrambling, fold, data, own, seed);
    OwnLong(mixing, scrambling, fold, data, K_SECRET, own, own, 0);
    OwnLong(mixing, scrambling, fold, data, K_SECRET, own, K_SECRET, seed);
  }

  lemma OwnEmpty(fold: Folding, own: Bytes)
    requires |K_SECRET| == 192 && own == K_SECRET[56..]
    ensures |own| == 136 && Short(fold, [], own, 0) == 0x3ff65704f2b430a3
  {
    SecretIs();
    Secret112(K_SECRET);
    OwnReads(K_SECRET, own, 56);
    OwnReads(K_SECRET, own, 64);
    OwnEmptyIs(fold, own);
  }

  lemma OwnEmptyIs(fold: Folding, own: Bytes)
    requires |own| == 136 && ReadLE64(own, 56) == 0x3159b4cd4be0518a && ReadLE64(own, 64) == 0x647378d9c97e9fc8
    ensures Short(fold, [], own, 0) == 0x3ff65704f2b430a3
  {
  }

  lemma OwnShort(mixing: Mixing, scrambling: Scrambling, fold: Folding, own: Bytes, data: Bytes)
    requires Right(mixing, scrambling, fold) && |K_SECRET| == 192 && own == K_SECRET[56..] && data == [0x7c, 0x01, 0x81, 0x2c, 0xf7, 0x21, 0xad]
    ensures Proper(Xxh3With(mixing, scrambling, fold)) && ModeOk(WithSecret(own)) && ModeOk(WithSecretAndSeed(own, SEED))
    ensures Reference(Xxh3With(mixing, scrambling, fold), WithSecret(own), []) == 0x3ff65704f2b430a3
    ensures Reference(Xxh3With(mixing, scrambling, fold), WithSecretAndSeed(own, SEED), data) == 0xa97212b33ed62fdf
  {
    SecretIs();
    OwnEmpty(fold, own);
    Secret(mixing, scrambling, fold, [], own, SEED);
    ShortHash(mixing, scrambling, fold, [], own, 0, own);
    Secret(mixing, scrambling, fold, data, own, SEED);
    ShortHash(mixing, scrambling, fold, data, K_SECRET, SEED, own);
    Seven(fold, data, K_SECRET);
  }

  /** The last 136 bytes of the default secret as the user's: one block and a byte of zeros, and two short inputs. */
  lemma OwnSecretAnswers(own: Bytes, data: Bytes)
    requires |K_SECRET| == 192 && own == K_SECRET[56..] && data == [0x7c, 0x01, 0x81, 0x2c, 0xf7, 0x21, 0xad]
    ensures Proper(Xxh3()) && ModeOk(WithSecret(own)) && ModeOk(WithSecretAndSeed(own, SEED))
    ensures Reference(Xxh3(), WithSecret(own), Zeros(577)) == 0xdb51fc69d62fa9f5
    ensures Reference(Xxh3(), WithSecretAndSeed(own, SEED), Zeros(577)) == 0xdb51fc69d62fa9f5
    ensures Reference(Xxh3(), WithSecret(own), []) == 0x3ff65704f2b430a3
    ensures Reference(Xxh3(), WithSecretAndSeed(own, SEED), data) == 0xa97212b33ed62fdf
  {
    RightOnes();
    ZerosAreZero(577);
    OwnAnswer(MixWords, ScrambleLane, Fold64, Zeros(577), own, SEED);
    OwnShort(MixWords, ScrambleLane, Fold64, own, data);
  }

  lemma DerivedAt(k: Bytes, seed: bv64, n: nat, i: nat, secret: Bytes, w: bv64)
    requires |k| == 192 && i < n == 24 && secret == Words(DerivedBytes(k, seed), n) && w == DerivedWord(k, seed, i)
    ensures 8 * i + 8 <= |secret| && ReadLE64(secret, 8 * i) == w
  {
    DerivedLengths(k, seed);
    DerivedStored(k, seed, i, w);
    WordRead(DerivedBytes(k, seed), n, i, w);
  }

  lemma DerivedLengths(k: Bytes, seed: bv64)
    requires |k| == 192
    ensures forall j :: |DerivedBytes(k, seed)(j)| == 8
  {
  }

  lemma DerivedStored(k: Bytes, seed: bv64, i: nat, w: bv64)
    requires |k| == 192 && i < 24 && w == DerivedWord(k, seed, i)
    ensures DerivedBytes(k, seed)(i) == WordBytes(w)
  {
  }

  lemma DerivedFrom(k: Bytes, seed: bv64, i: nat, secret: Bytes)
    requires |k| == 192 && i < 24 && secret == DeriveFrom(k, seed)
    ensures ReadLE64(secret, 8 * i) == if i % 2 == 0 then ReadLE64(k, 8 * i) + seed else ReadLE64(k, 8 * i) - seed
  {
    DerivedAt(k, seed, 24, i, secret, DerivedWord(k, seed, i));
  }

  /** The secret of a seed: the default one's words with the seed added and subtracted by turns. */
  lemma DerivedWords(k: Bytes, seed: bv64, i: nat, secret: Bytes)
    requires k == K_SECRET && i < 24 && secret == DeriveSecret(seed)
    ensures |k| == 192
    ensures ReadLE64(secret, 8 * i) == if i % 2 == 0 then ReadLE64(k, 8 * i) + seed else ReadLE64(k, 8 * i) - seed
  {
    SecretIs();
    DerivedFrom(k, seed, i, secret);
  }
}
