/** Known answers of XXH3 for inputs of more than 240 bytes. */
module Xxh3LongAnswers {
  import opened Machine
  import opened Stripes
  import opened Xxh64
  import opened Xxh3Engine
  import opened Xxh3Kernel
  import opened Xxh3Reads
  import opened Xxh3ShortAnswers

  // ----- accumulators, words and products the answers meet, eight lanes each

  const LANES0: Acc :=
    [3266489917, 11400714785074694791, 14029467366897019727, 1609587929392839161,
     9650029242287828579, 2246822519, 2870177450012600261, 2654435761]
  const LANES1: Acc :=
    [3075919846222815589, 11759935400634823979, 10010893825141618921, 3064977902795702647,
     12334975811278535719, 1184552437147461647, 7522204059593406797, 4941924438780632977]
  const LANES2: Acc :=
    [0, 0, 0, 0,
     0, 0, 0, 0]
  const LANES3: Acc :=
    [3075919842956325672, 359220615560129188, 14428170531954150810, 1455389973402863486,
     2684946568990707140, 1184552434900639128, 4652026609580806536, 4941924436126197216]
  const LANES4: Acc :=
    [3435140461782944777, 7741361858879423173, 11466283798544482407, 5749924471786409787,
     13519528246179174847, 5836579046728268183, 12464128495719604013, 15645490920189975949]
  const LANES5: Acc :=
    [359220615560129188, 14428170531954150810, 1455389973402863486, 2684946568990707140,
     1184552434900639128, 4652026609580806536, 4941924436126197216, 10703566481409342972]
  const LANES6: Acc :=
    [17863310993737095587, 9196751832282286659, 14151230367535189547, 6934476906687048915,
     18171554855759981383, 10778503482854465399, 4720950903419395369, 3601472790891262949]
  const LANES7: Acc :=
    [14428170531954150810, 1455389973402863486, 2684946568990707140, 1184552434900639128,
     4652026609580806536, 4941924436126197216, 10703566481409342972, 6402725944410838616]
  const LANES8: Acc :=
    [13785198926103077163, 12120015289681905570, 15841137096465947326, 17836948683970345731,
     230030657806176639, 15858639183282859409, 7134162887894703785, 10975072597619846487]
  const LANES9: Acc :=
    [14368632006075533192, 2923263457399618911, 1689906728930757779, 10902471777283296816,
     505219875755746872, 5080135700428394010, 2413211984475308416, 7373599806728583538]
  const LANES10: Acc :=
    [16828803544977057131, 6119572295559584619, 8606304717649288202, 10697773081852481870,
     2737100317760335387, 2883431374633545815, 7069935173040041617, 9053887033740396881]
  const LANES11: Acc :=
    [2066345149520216444, 15823274712020931806, 2262974939099578482, 8711581037947681227,
     2410270004345854594, 10242386182634080440, 5487137525590930912, 14627906620379768892]
  const LANES12: Acc :=
    [1005528829689635408, 11099256434674225000, 4312000386514138864, 6825210213360064227,
     1291428966547977984, 473161368040868702, 8018595176357224080, 3566749505495030208]
  const LANES13: Acc :=
    [13123180793986137804, 4737183335694304642, 7440155539159322462, 10159824896634346931,
     9454225379652928238, 8426089305333891236, 3284963655110951483, 16435223057636381703]
  const LANES14: Acc :=
    [11758427054878871688, 5690594596133299313, 15613098826807580984, 4554437623014685352,
     2111919702937427193, 3556072174620004746, 7238261902898274248, 14117609679423849962]
  const LANES15: Acc :=
    [9050526726585332976, 5305928058965399951, 12726157272204900524, 2295697061683835693,
     3161052887272588105, 3430738227762918228, 544162876356611520, 143074120997710574]
  const LANES16: Acc :=
    [312471851885975206, 9245091707818112583, 13991820615693460993, 5464823665445825887,
     15331933315154948478, 7815489656457804311, 4349357753421793041, 8559060096585831990]
  const LANES17: Acc :=
    [16961422590358880709, 5321830579834785047, 11414606528772380371, 18203909772493592107,
     14857885871595124879, 2883454493032893253, 9097354517224871855, 13712233961653862072]
  const LANES18: Acc :=
    [314204551774603971, 5993229855474478848, 6794499377750098040, 2337136313748650201,
     2994253442469126987, 2978258553238339812, 5798904210366531102, 1473226595434130048]
  const LANES19: Acc :=
    [7702152481322051327, 5980067195181849859, 17381331301896112355, 3988461422425376630,
     1733432770845100216, 16553344065654564926, 10674065766148773553, 7712161552359914315]
  const LANES20: Acc :=
    [13712233961653862072, 2066345149520216444, 15823274712020931806, 2262974939099578482,
     8711581037947681227, 2410270004345854594, 10242386182634080440, 5487137525590930912]
  const LANES21: Acc :=
    [5323335479915859677, 1469485599419426820, 1126535747103072880, 1147107118668170553,
     2437973525053848760, 26273371249079388, 837570487136049600, 7357459346849553501]
  const LANES22: Acc :=
    [4941924439392687133, 3657537192774486147, 1985449237598306727, 4972435526457607803,
     13976198059919991899, 1129087114282691951, 4517918983134175316, 1053989848641686835]
  const LANES23: Acc :=
    [4941924436126197216, 10703566481409342972, 6402725944410838616, 3362847597064768642,
     4326168817632163320, 1129087112035869432, 1647741533121575055, 1053989845987251074]
  const LANES24: Acc :=
    [15645490920802030105, 10060263137185324763, 5348296834663075369, 9298604344089771123,
     15105285171955861331, 2776828647404267006, 5571908829121426390, 6751141689302908347]
  const LANES25: Acc :=
    [10703566481409342972, 6402725944410838616, 3362847597064768642, 4326168817632163320,
     1129087112035869432, 1647741533121575055, 1053989845987251074, 5697151840661221512]
  const LANES26: Acc :=
    [3601472791503317105, 13423110734250093405, 9674465652295238689, 10427691456125640555,
     16753026705077436386, 3830818493391518080, 11269060669782647902, 14012605638111203139]
  const LANES27: Acc :=
    [6402725944410838616, 3362847597064768642, 4326168817632163320, 1129087112035869432,
     1647741533121575055, 1053989845987251074, 5697151840661221512, 7261463948808294792]
  const LANES28: Acc :=
    [6964320388568085747, 17749279551882256725, 10803552764331108121, 12075432989247215610,
     17807016551064687460, 9527970334052739592, 83780544881391078, 12502569510950168741]
  const LANES29: Acc :=
    [3362847597064768642, 4326168817632163320, 1129087112035869432, 1647741533121575055,
     1053989845987251074, 5697151840661221512, 7261463948808294792, 16936707946548517218]
  const LANES30: Acc :=
    [11290489206200249067, 431622590208574541, 12451294297452683176, 13129422835234466684,
     5057424318016357356, 16789434282861034384, 17020488491429908296, 14204380356130395158]
  const LANES31: Acc :=
    [4326168817632163320, 1129087112035869432, 1647741533121575055, 1053989845987251074,
     5697151840661221512, 7261463948808294792, 16936707946548517218, 1701810845180226417]
  const LANES32: Acc :=
    [12419576318236118499, 2079364123330149596, 13505284143439934250, 379830602186136580,
     12318888266824652148, 15279398155699999986, 275555262900583097, 15913556252642228193]
  const LANES33: Acc :=
    [1129087112035869432, 1647741533121575055, 1053989845987251074, 5697151840661221512,
     7261463948808294792, 16936707946548517218, 1701810845180226417, 1709175896511833035]
  const LANES34: Acc :=
    [14067317851357693554, 3133353969317400670, 755691910391604146, 7641294550994431372,
     10808852139663617750, 16981209000880226403, 1984731159412416132, 3777206443463243744]
  const LANES35: Acc :=
    [1647741533121575055, 1053989845987251074, 5697151840661221512, 7261463948808294792,
     16936707946548517218, 1701810845180226417, 1709175896511833035, 6310394264530567167]
  const LANES36: Acc :=
    [15121307697344944628, 8830505809978622182, 8017155859199898938, 6131258423833396974,
     12510662984843844167, 243640823682507822, 8295125423942983299, 15949212706925124614]
  const LANES37: Acc :=
    [1053989845987251074, 5697151840661221512, 7261463948808294792, 16936707946548517218,
     1701810845180226417, 1709175896511833035, 6310394264530567167, 12172006263461880870]
  const LANES38: Acc :=
    [2371715464296614524, 16091969758786916974, 6507119732038864540, 7833069269013623391,
     14219838881355677202, 6554035088213074989, 2020387613695312553, 17562479184564934959]
  const LANES39: Acc :=
    [5697151840661221512, 7261463948808294792, 16936707946548517218, 1701810845180226417,
     1709175896511833035, 6310394264530567167, 12172006263461880870, 1613266477639810345]
  const LANES40: Acc :=
    [3624994447309720994, 8019513167761620575, 14829264056884240912, 4168043108495198293,
     10805547871868012903, 12525839249319165915, 13877743493837445199, 10098296283372361140]
  const LANES41: Acc :=
    [17993626453385254186, 10942776625161239486, 16519170785814998691, 15070514885778495109,
     11310767747623759775, 17605974949747559925, 16290955478312753615, 17471896090100944678]

  // ----- stripes of known words

  predicate Eight(b: Bytes, w0: bv64, w1: bv64, w2: bv64, w3: bv64, w4: bv64, w5: bv64, w6: bv64, w7: bv64) {
    && |b| == 64 && ReadLE64(b, 0) == w0 && ReadLE64(b, 8) == w1 && ReadLE64(b, 16) == w2 && ReadLE64(b, 24) == w3
    && ReadLE64(b, 32) == w4 && ReadLE64(b, 40) == w5 && ReadLE64(b, 48) == w6 && ReadLE64(b, 56) == w7
  }

  predicate Lanes8(mixing: Mixing, input: Bytes, s: Bytes, d: seq<SizeT>, m: seq<SizeT>)
    requires |input| == 64 == |s| && |d| == 8 == |m|
  {
    && LaneData(input, 0) == d[0] && LaneData(input, 1) == d[1] && LaneData(input, 2) == d[2] && LaneData(input, 3) == d[3]
    && LaneData(input, 4) == d[4] && LaneData(input, 5) == d[5] && LaneData(input, 6) == d[6] && LaneData(input, 7) == d[7]
    && LaneMix(mixing, input, s, 0) == m[0] && LaneMix(mixing, input, s, 1) == m[1]
    && LaneMix(mixing, input, s, 2) == m[2] && LaneMix(mixing, input, s, 3) == m[3]
    && LaneMix(mixing, input, s, 4) == m[4] && LaneMix(mixing, input, s, 5) == m[5]
    && LaneMix(mixing, input, s, 6) == m[6] && LaneMix(mixing, input, s, 7) == m[7]
  }

  lemma LaneAt(mixing: Mixing, input: Bytes, s: Bytes, d: seq<SizeT>, m: seq<SizeT>, i: nat)
    requires |input| == 64 == |s| && |d| == 8 == |m| && Lanes8(mixing, input, s, d, m) && i < 8
    ensures StripeData(input)(i) == d[i] && StripeMix(mixing, input, s)(i) == m[i]
  {
  }

  lemma LanesAre(mixing: Mixing, acc: Acc, input: Bytes, s: Bytes, d: seq<SizeT>, m: seq<SizeT>, r: seq<SizeT>)
    requires |input| == 64 == |s| && |d| == 8 == |m| == |r| && Lanes8(mixing, input, s, d, m)
    requires forall i | 0 <= i < 8 :: r[i] == Plus(Plus(acc[i], d[Twin(i)]), m[i])
    ensures Accumulate512(mixing, acc, input, s) == r
  {
    forall i: nat | i < 8 ensures Plus(Plus(acc[i], StripeData(input)(Twin(i))), StripeMix(mixing, input, s)(i)) == r[i] {
      LaneAt(mixing, input, s, d, m, i);
      LaneAt(mixing, input, s, d, m, Twin(i));
    }
  }

  /** A part of the secret, of zeros, of the sample. */
  lemma SliceReads(k: Bytes, off: nat, i: nat)
    requires off + 64 <= |k| && i + 8 <= 64
    ensures ReadLE64(Slice(k, off, 64), i) == ReadLE64(k, off + i)
  {
    ReadPart(k, off, off + 64, off + i, 8);
  }

  lemma SliceEight(k: Bytes, off: nat, w0: bv64, w1: bv64, w2: bv64, w3: bv64, w4: bv64, w5: bv64, w6: bv64, w7: bv64)
    requires off + 64 <= |k|
    requires ReadLE64(k, off) == w0 && ReadLE64(k, off + 8) == w1 && ReadLE64(k, off + 16) == w2 && ReadLE64(k, off + 24) == w3
    requires ReadLE64(k, off + 32) == w4 && ReadLE64(k, off + 40) == w5 && ReadLE64(k, off + 48) == w6 && ReadLE64(k, off + 56) == w7
    ensures Eight(Slice(k, off, 64), w0, w1, w2, w3, w4, w5, w6, w7)
  {
    forall i | 0 <= i <= 56 ensures ReadLE64(Slice(k, off, 64), i) == ReadLE64(k, off + i) {
      SliceReads(k, off, i);
    }
  }

  lemma ZeroEight(b: Bytes)
    requires |b| == 64 && AllZero(b)
    ensures Eight(b, 0, 0, 0, 0, 0, 0, 0, 0)
  {
    ZeroRead(b, 0, 8);
    ZeroRead(b, 8, 8);
    ZeroRead(b, 16, 8);
    ZeroRead(b, 24, 8);
    ZeroRead(b, 32, 8);
    ZeroRead(b, 40, 8);
    ZeroRead(b, 48, 8);
    ZeroRead(b, 56, 8);
  }

  // ----- one stripe after the other

  ghost function After(mixing: Mixing, scrambling: Scrambling, fold: Folding, k: Bytes, data: Bytes, n: nat): Lane<Acc>
    requires |k| >= SECRET_SIZE_MIN && 64 * n <= |data|
  {
    Absorb(Xxh3With(mixing, scrambling, fold), k, Lane(INIT_ACC, 0), data[..64 * n])
  }

  /** n stripes of data lead there. */
  ghost predicate Reaches(mixing: Mixing, scrambling: Scrambling, fold: Folding, k: Bytes, data: Bytes, n: nat, acc: Acc, soFar: nat)
    requires |k| >= SECRET_SIZE_MIN && 64 * n <= |data|
  {
    After(mixing, scrambling, fold, k, data, n) == Lane(acc, soFar)
  }

  lemma AfterStart(mixing: Mixing, scrambling: Scrambling, fold: Folding, k: Bytes, data: Bytes)
    requires |k| >= SECRET_SIZE_MIN
    ensures Reaches(mixing, scrambling, fold, k, data, 0, INIT_ACC, 0)
  {
    assert data[..0] == [];
  }

  lemma StepIs(mixing: Mixing, scrambling: Scrambling, fold: Folding, k: Bytes, input: Bytes, acc: Acc, soFar: nat, r: Acc)
    requires |k| >= SECRET_SIZE_MIN && |input| == 64 && soFar < Per(k)
    requires Accumulate512(mixing, acc, input, Slice(k, 8 * soFar, 64)) == r
    ensures soFar + 1 < Per(k) ==> Step(Xxh3With(mixing, scrambling, fold), k)(Lane(acc, soFar), input) == Lane(r, soFar + 1)
    ensures soFar + 1 == Per(k) ==>
      Step(Xxh3With(mixing, scrambling, fold), k)(Lane(acc, soFar), input) == Lane(ScrambleAcc(scrambling, r, Slice(k, |k| - 64, 64)), 0)
  {
  }

  lemma AfterStep<A(!new), H(!new)>(kernel: Kernel<A, H>, k: Bytes, data: Bytes, n: nat, s: Lane<A>, input: Bytes)
    requires |k| >= SECRET_SIZE_MIN && 64 * n + 64 <= |data| && input == data[64 * n..64 * n + 64]
    ensures Absorb(kernel, k, s, data[..64 * (n + 1)]) == Step(kernel, k)(Absorb(kernel, k, s, data[..64 * n]), input)
  {
    AbsorbAppend(kernel, k, s, data[..64 * n], input);
    AbsorbOne(kernel, k, Absorb(kernel, k, s, data[..64 * n]), input);
    assert data[..64 * (n + 1)] == data[..64 * n] + input;
  }

  /** A stripe inside a block, and the one that ends it. */
  lemma AfterNext(mixing: Mixing, scrambling: Scrambling, fold: Folding, k: Bytes, data: Bytes, n: nat, input: Bytes,
                  acc: Acc, soFar: nat, r: Acc)
    requires |k| >= SECRET_SIZE_MIN && 64 * n + 64 <= |data| && input == data[64 * n..64 * n + 64]
    requires Reaches(mixing, scrambling, fold, k, data, n, acc, soFar) && soFar < Per(k)
    requires Accumulate512(mixing, acc, input, Slice(k, 8 * soFar, 64)) == r
    ensures soFar + 1 < Per(k) ==> Reaches(mixing, scrambling, fold, k, data, n + 1, r, soFar + 1)
    ensures soFar + 1 == Per(k) ==>
      Reaches(mixing, scrambling, fold, k, data, n + 1, ScrambleAcc(scrambling, r, Slice(k, |k| - 64, 64)), 0)
  {
    AfterStep(Xxh3With(mixing, scrambling, fold), k, data, n, Lane(INIT_ACC, 0), input);
    StepIs(mixing, scrambling, fold, k, input, acc, soFar, r);
  }

  lemma LastOf<A(!new), H(!new)>(kernel: Kernel<A, H>, k: Bytes, data: Bytes, n: nat, s: Lane<A>)
    requires |k| >= SECRET_SIZE_MIN && 64 < |data| && 64 * n < |data| <= 64 * n + 64
    requires Absorb(kernel, k, Lane(kernel.init, 0), data[..64 * n]) == s
    ensures LongAcc(kernel, k, data) == kernel.accumulate512(s.acc, data[|data| - 64..], Slice(k, |k| - 71, 64))
  {
    CutUnique(64 * n, |data|);
  }

  lemma LastStripe(mixing: Mixing, scrambling: Scrambling, fold: Folding, k: Bytes, data: Bytes, n: nat, acc: Acc, soFar: nat,
                   input: Bytes, r: Acc)
    requires |k| >= SECRET_SIZE_MIN && 64 < |data| && 64 * n < |data| <= 64 * n + 64 && input == data[|data| - 64..]
    requires Reaches(mixing, scrambling, fold, k, data, n, acc, soFar)
    requires Accumulate512(mixing, acc, input, Slice(k, |k| - 71, 64)) == r
    ensures LongAcc(Xxh3With(mixing, scrambling, fold), k, data) == r
  {
    LastOf(Xxh3With(mixing, scrambling, fold), k, data, n, Lane(acc, soFar));
  }

  lemma HashIs(mixing: Mixing, scrambling: Scrambling, fold: Folding, k: Bytes, data: Bytes, s: Bytes, seed: bv64, r: Acc)
    requires |k| >= SECRET_SIZE_MIN && |s| >= SECRET_SIZE_MIN && |data| > 240 && LongAcc(Xxh3With(mixing, scrambling, fold), k, data) == r
    ensures Hash(Xxh3With(mixing, scrambling, fold), data, s, seed, k) == MergeAccs(fold, r, k, |data|)
  {
  }

  // ----- the multiplications the answers use

  ghost predicate Mixes(mixing: Mixing) {
    && mixing(0, 0xbe4ba423396cfeb8) == 3075919842956325672
    && mixing(0, 0x1cad21f72c81017c) == 359220615560129188
    && mixing(0, 0xdb979083e96dd4de) == 14428170531954150810
    && mixing(0, 0x1f67b3b7a4a44072) == 1455389973402863486
    && mixing(0, 0x78e5c0cc4ee679cb) == 2684946568990707140
    && mixing(0, 0x2172ffcc7dd05a82) == 1184552434900639128
    && mixing(0, 0x8e2443f7744608b8) == 4652026609580806536
    && mixing(0, 0x4c263a81e69035e0) == 4941924436126197216
    && mixing(0, 0xcb00c391bb52283c) == 10703566481409342972
    && mixing(0, 0xa32e531b8b65d088) == 6402725944410838616
    && mixing(0, 0xea647378d9c97e9f) == 14368632006075533192
    && mixing(0, 0xc5c3ebd33483acc5) == 2923263457399618911
    && mixing(0, 0x17eb6313faffa081) == 1689906728930757779
    && mixing(0, 0xd349daf0b751dd0d) == 10902471777283296816
    && mixing(0, 0x2b9e68d429265516) == 505219875755746872
    && mixing(0, 0x8ffca1477d58be16) == 5080135700428394010
    && mixing(0, 0x45ce31d07ad1b8f8) == 2413211984475308416
    && mixing(0, 0xaf280416958f3acb) == 7373599806728583538
    && mixing(0x1cad21f72c81017c, 0xbe4ba423396cfeb8) == 1005528829689635408
    && mixing(0xdb979083e96dd4de, 0x1cad21f72c81017c) == 11099256434674225000
    && mixing(0x1f67b3b7a4a44072, 0xdb979083e96dd4de) == 4312000386514138864
    && mixing(0x78e5c0cc4ee679cb, 0x1f67b3b7a4a44072) == 6825210213360064227
    && mixing(0x2172ffcc7dd05a82, 0x78e5c0cc4ee679cb) == 1291428966547977984
    && mixing(0x8e2443f7744608b8, 0x2172ffcc7dd05a82) == 473161368040868702
    && mixing(0x4c263a81e69035e0, 0x8e2443f7744608b8) == 8018595176357224080
    && mixing(0xcb00c391bb52283c, 0x4c263a81e69035e0) == 3566749505495030208
    && mixing(0xa32e531b8b65d088, 0x1cad21f72c81017c) == 9050526726585332976
    && mixing(0x4ef90da297486471, 0xdb979083e96dd4de) == 5305928058965399951
    && mixing(0xd8acdea946ef1938, 0x1f67b3b7a4a44072) == 12726157272204900524
    && mixing(0x3f349ce33f76faa8, 0x78e5c0cc4ee679cb) == 2295697061683835693
    && mixing(0x1d4f0bc7c7bbdcf9, 0x2172ffcc7dd05a82) == 3161052887272588105
    && mixing(0x3159b4cd4be0518a, 0x8e2443f7744608b8) == 3430738227762918228
    && mixing(0x647378d9c97e9fc8, 0x4c263a81e69035e0) == 544162876356611520
    && mixing(0xc3ebd33483acc5ea, 0xcb00c391bb52283c) == 143074120997710574
    && mixing(0xeb6313faffa081c5, 0xdb979083e96dd4de) == 314204551774603971
    && mixing(0x49daf0b751dd0d17, 0x1f67b3b7a4a44072) == 5993229855474478848
    && mixing(0x9e68d429265516d3, 0x78e5c0cc4ee679cb) == 6794499377750098040
    && mixing(0xfca1477d58be162b, 0x2172ffcc7dd05a82) == 2337136313748650201
    && mixing(0xce31d07ad1b8f88f, 0x8e2443f7744608b8) == 2994253442469126987
    && mixing(0x280416958f3acb45, 0x4c263a81e69035e0) == 2978258553238339812
    && mixing(0x7e404bbbcafbd7af, 0xcb00c391bb52283c) == 5798904210366531102
    && mixing(0xbe4ba423396cfeb8, 0xa32e531b8b65d088) == 1473226595434130048
    && mixing(0xbe4ba423396cfeb8, 0xea647378d9c97e9f) == 5323335479915859677
    && mixing(0x1cad21f72c81017c, 0xc5c3ebd33483acc5) == 1469485599419426820
    && mixing(0xdb979083e96dd4de, 0x17eb6313faffa081) == 1126535747103072880
    && mixing(0x1f67b3b7a4a44072, 0xd349daf0b751dd0d) == 1147107118668170553
    && mixing(0x78e5c0cc4ee679cb, 0x2b9e68d429265516) == 2437973525053848760
    && mixing(0x2172ffcc7dd05a82, 0x8ffca1477d58be16) == 26273371249079388
    && mixing(0x8e2443f7744608b8, 0x45ce31d07ad1b8f8) == 837570487136049600
    && mixing(0x4c263a81e69035e0, 0xaf280416958f3acb) == 7357459346849553501
    && mixing(0, 0x4ef90da297486471) == 3362847597064768642
    && mixing(0, 0xd8acdea946ef1938) == 4326168817632163320
    && mixing(0, 0x3f349ce33f76faa8) == 1129087112035869432
    && mixing(0, 0x1d4f0bc7c7bbdcf9) == 1647741533121575055
    && mixing(0, 0x3159b4cd4be0518a) == 1053989845987251074
    && mixing(0, 0x647378d9c97e9fc8) == 5697151840661221512
    && mixing(0, 0xc3ebd33483acc5ea) == 7261463948808294792
    && mixing(0, 0xeb6313faffa081c5) == 16936707946548517218
    && mixing(0, 0x49daf0b751dd0d17) == 1701810845180226417
    && mixing(0, 0x9e68d429265516d3) == 1709175896511833035
    && mixing(0, 0xfca1477d58be162b) == 6310394264530567167
    && mixing(0, 0xce31d07ad1b8f88f) == 12172006263461880870
    && mixing(0, 0x280416958f3acb45) == 1613266477639810345
  }

  lemma Mixed0() ensures MixWords(0, 0xbe4ba423396cfeb8) == 3075919842956325672 { }

  lemma Mixed1() ensures MixWords(0, 0x1cad21f72c81017c) == 359220615560129188 { }

  lemma Mixed2() ensures MixWords(0, 0xdb979083e96dd4de) == 14428170531954150810 { }

  lemma Mixed3() ensures MixWords(0, 0x1f67b3b7a4a44072) == 1455389973402863486 { }

  lemma Mixed4() ensures MixWords(0, 0x78e5c0cc4ee679cb) == 2684946568990707140 { }

  lemma Mixed5() ensures MixWords(0, 0x2172ffcc7dd05a82) == 1184552434900639128 { }

  lemma Mixed6() ensures MixWords(0, 0x8e2443f7744608b8) == 4652026609580806536 { }

  lemma Mixed7() ensures MixWords(0, 0x4c263a81e69035e0) == 4941924436126197216 { }

  lemma Mixed8() ensures MixWords(0, 0xcb00c391bb52283c) == 10703566481409342972 { }

  lemma Mixed9() ensures MixWords(0, 0xa32e531b8b65d088) == 6402725944410838616 { }

  lemma Mixed10() ensures MixWords(0, 0xea647378d9c97e9f) == 14368632006075533192 { }

  lemma Mixed11() ensures MixWords(0, 0xc5c3ebd33483acc5) == 2923263457399618911 { }

  lemma Mixed12() ensures MixWords(0, 0x17eb6313faffa081) == 1689906728930757779 { }

  lemma Mixed13() ensures MixWords(0, 0xd349daf0b751dd0d) == 10902471777283296816 { }

  lemma Mixed14() ensures MixWords(0, 0x2b9e68d429265516) == 505219875755746872 { }

  lemma Mixed15() ensures MixWords(0, 0x8ffca1477d58be16) == 5080135700428394010 { }

  lemma Mixed16() ensures MixWords(0, 0x45ce31d07ad1b8f8) == 2413211984475308416 { }

  lemma Mixed17() ensures MixWords(0, 0xaf280416958f3acb) == 7373599806728583538 { }

  lemma Mixed18() ensures MixWords(0x1cad21f72c81017c, 0xbe4ba423396cfeb8) == 1005528829689635408 { }

  lemma Mixed19() ensures MixWords(0xdb979083e96dd4de, 0x1cad21f72c81017c) == 11099256434674225000 { }

  lemma Mixed20() ensures MixWords(0x1f67b3b7a4a44072, 0xdb979083e96dd4de) == 4312000386514138864 { }

  lemma Mixed21() ensures MixWords(0x78e5c0cc4ee679cb, 0x1f67b3b7a4a44072) == 6825210213360064227 { }

  lemma Mixed22() ensures MixWords(0x2172ffcc7dd05a82, 0x78e5c0cc4ee679cb) == 1291428966547977984 { }

  lemma Mixed23() ensures MixWords(0x8e2443f7744608b8, 0x2172ffcc7dd05a82) == 473161368040868702 { }

  lemma Mixed24() ensures MixWords(0x4c263a81e69035e0, 0x8e2443f7744608b8) == 8018595176357224080 { }

  lemma Mixed25() ensures MixWords(0xcb00c391bb52283c, 0x4c263a81e69035e0) == 3566749505495030208 { }

  lemma Mixed26() ensures MixWords(0xa32e531b8b65d088, 0x1cad21f72c81017c) == 9050526726585332976 { }

  lemma Mixed27() ensures MixWords(0x4ef90da297486471, 0xdb979083e96dd4de) == 5305928058965399951 { }

  lemma Mixed28() ensures MixWords(0xd8acdea946ef1938, 0x1f67b3b7a4a44072) == 12726157272204900524 { }

  lemma Mixed29() ensures MixWords(0x3f349ce33f76faa8, 0x78e5c0cc4ee679cb) == 2295697061683835693 { }

  lemma Mixed30() ensures MixWords(0x1d4f0bc7c7bbdcf9, 0x2172ffcc7dd05a82) == 3161052887272588105 { }

  lemma Mixed31() ensures MixWords(0x3159b4cd4be0518a, 0x8e2443f7744608b8) == 3430738227762918228 { }

  lemma Mixed32() ensures MixWords(0x647378d9c97e9fc8, 0x4c263a81e69035e0) == 544162876356611520 { }

  lemma Mixed33() ensures MixWords(0xc3ebd33483acc5ea, 0xcb00c391bb52283c) == 143074120997710574 { }

  lemma Mixed34() ensures MixWords(0xeb6313faffa081c5, 0xdb979083e96dd4de) == 314204551774603971 { }

  lemma Mixed35() ensures MixWords(0x49daf0b751dd0d17, 0x1f67b3b7a4a44072) == 5993229855474478848 { }

  lemma Mixed36() ensures MixWords(0x9e68d429265516d3, 0x78e5c0cc4ee679cb) == 6794499377750098040 { }

  lemma Mixed37() ensures MixWords(0xfca1477d58be162b, 0x2172ffcc7dd05a82) == 2337136313748650201 { }

  lemma Mixed38() ensures MixWords(0xce31d07ad1b8f88f, 0x8e2443f7744608b8) == 2994253442469126987 { }

  lemma Mixed39() ensures MixWords(0x280416958f3acb45, 0x4c263a81e69035e0) == 2978258553238339812 { }

  lemma Mixed40() ensures MixWords(0x7e404bbbcafbd7af, 0xcb00c391bb52283c) == 5798904210366531102 { }

  lemma Mixed41() ensures MixWords(0xbe4ba423396cfeb8, 0xa32e531b8b65d088) == 1473226595434130048 { }

  lemma Mixed42() ensures MixWords(0xbe4ba423396cfeb8, 0xea647378d9c97e9f) == 5323335479915859677 { }

  lemma Mixed43() ensures MixWords(0x1cad21f72c81017c, 0xc5c3ebd33483acc5) == 1469485599419426820 { }

  lemma Mixed44() ensures MixWords(0xdb979083e96dd4de, 0x17eb6313faffa081) == 1126535747103072880 { }

  lemma Mixed45() ensures MixWords(0x1f67b3b7a4a44072, 0xd349daf0b751dd0d) == 1147107118668170553 { }

  lemma Mixed46() ensures MixWords(0x78e5c0cc4ee679cb, 0x2b9e68d429265516) == 2437973525053848760 { }

  lemma Mixed47() ensures MixWords(0x2172ffcc7dd05a82, 0x8ffca1477d58be16) == 26273371249079388 { }

  lemma Mixed48() ensures MixWords(0x8e2443f7744608b8, 0x45ce31d07ad1b8f8) == 837570487136049600 { }

  lemma Mixed49() ensures MixWords(0x4c263a81e69035e0, 0xaf280416958f3acb) == 7357459346849553501 { }

  lemma Mixed50() ensures MixWords(0, 0x4ef90da297486471) == 3362847597064768642 { }

  lemma Mixed51() ensures MixWords(0, 0xd8acdea946ef1938) == 4326168817632163320 { }

  lemma Mixed52() ensures MixWords(0, 0x3f349ce33f76faa8) == 1129087112035869432 { }

  lemma Mixed53() ensures MixWords(0, 0x1d4f0bc7c7bbdcf9) == 1647741533121575055 { }

  lemma Mixed54() ensures MixWords(0, 0x3159b4cd4be0518a) == 1053989845987251074 { }

  lemma Mixed55() ensures MixWords(0, 0x647378d9c97e9fc8) == 5697151840661221512 { }

  lemma Mixed56() ensures MixWords(0, 0xc3ebd33483acc5ea) == 7261463948808294792 { }

  lemma Mixed57() ensures MixWords(0, 0xeb6313faffa081c5) == 16936707946548517218 { }

  lemma Mixed58() ensures MixWords(0, 0x49daf0b751dd0d17) == 1701810845180226417 { }

  lemma Mixed59() ensures MixWords(0, 0x9e68d429265516d3) == 1709175896511833035 { }

  lemma Mixed60() ensures MixWords(0, 0xfca1477d58be162b) == 6310394264530567167 { }

  lemma Mixed61() ensures MixWords(0, 0xce31d07ad1b8f88f) == 12172006263461880870 { }

  lemma Mixed62() ensures MixWords(0, 0x280416958f3acb45) == 1613266477639810345 { }

  lemma MixKnown()
    ensures Mixes(MixWords)
  {
    Mixed0();
    Mixed1();
    Mixed2();
    Mixed3();
    Mixed4();
    Mixed5();
    Mixed6();
    Mixed7();
    Mixed8();
    Mixed9();
    Mixed10();
    Mixed11();
    Mixed12();
    Mixed13();
    Mixed14();
    Mixed15();
    Mixed16();
    Mixed17();
    Mixed18();
    Mixed19();
    Mixed20();
    Mixed21();
    Mixed22();
    Mixed23();
    Mixed24();
    Mixed25();
    Mixed26();
    Mixed27();
    Mixed28();
    Mixed29();
    Mixed30();
    Mixed31();
    Mixed32();
    Mixed33();
    Mixed34();
    Mixed35();
    Mixed36();
    Mixed37();
    Mixed38();
    Mixed39();
    Mixed40();
    Mixed41();
    Mixed42();
    Mixed43();
    Mixed44();
    Mixed45();
    Mixed46();
    Mixed47();
    Mixed48();
    Mixed49();
    Mixed50();
    Mixed51();
    Mixed52();
    Mixed53();
    Mixed54();
    Mixed55();
    Mixed56();
    Mixed57();
    Mixed58();
    Mixed59();
    Mixed60();
    Mixed61();
    Mixed62();
  }

  ghost predicate Scrambles(scrambling: Scrambling) {
    && scrambling(2371715464296614524, 0xc3ebd33483acc5ea) == 3624994447309720994
    && scrambling(16091969758786916974, 0xeb6313faffa081c5) == 8019513167761620575
    && scrambling(6507119732038864540, 0x49daf0b751dd0d17) == 14829264056884240912
    && scrambling(7833069269013623391, 0x9e68d429265516d3) == 4168043108495198293
    && scrambling(14219838881355677202, 0xfca1477d58be162b) == 10805547871868012903
    && scrambling(6554035088213074989, 0xce31d07ad1b8f88f) == 12525839249319165915
    && scrambling(2020387613695312553, 0x280416958f3acb45) == 13877743493837445199
    && scrambling(17562479184564934959, 0x7e404bbbcafbd7af) == 10098296283372361140
  }

  lemma Scrambled0() ensures ScrambleLane(2371715464296614524, 0xc3ebd33483acc5ea) == 3624994447309720994 { }

  lemma Scrambled1() ensures ScrambleLane(16091969758786916974, 0xeb6313faffa081c5) == 8019513167761620575 { }

  lemma Scrambled2() ensures ScrambleLane(6507119732038864540, 0x49daf0b751dd0d17) == 14829264056884240912 { }

  lemma Scrambled3() ensures ScrambleLane(7833069269013623391, 0x9e68d429265516d3) == 4168043108495198293 { }

  lemma Scrambled4() ensures ScrambleLane(14219838881355677202, 0xfca1477d58be162b) == 10805547871868012903 { }

  lemma Scrambled5() ensures ScrambleLane(6554035088213074989, 0xce31d07ad1b8f88f) == 12525839249319165915 { }

  lemma Scrambled6() ensures ScrambleLane(2020387613695312553, 0x280416958f3acb45) == 13877743493837445199 { }

  lemma Scrambled7() ensures ScrambleLane(17562479184564934959, 0x7e404bbbcafbd7af) == 10098296283372361140 { }

  lemma ScrambleKnown()
    ensures Scrambles(ScrambleLane)
  {
    Scrambled0();
    Scrambled1();
    Scrambled2();
    Scrambled3();
    Scrambled4();
    Scrambled5();
    Scrambled6();
    Scrambled7();
  }

  ghost predicate Foldings(fold: Folding) {
    && fold(0xd29a037e71599607, 0x0c72836b6a5b844b) == 0x1b1f89bd085175c3
    && fold(0x3daecd5d06ae2d1a, 0x27d3102a0d2cb74d) == 0xac10357ee978146d
    && fold(0x4539838b6f035d02, 0x4c20d4dea0e99ae5) == 0xbf9af3a29072ee99
    && fold(0x31299f1538879f4f, 0xfd9fc2aa0d82bcec) == 0x2506ad0c66f4f6ce
    && fold(0x073754c31239d1d3, 0xf6bd05b5b2575eea) == 0x0f9f86cfd3cff5dc
    && fold(0x174f2fa5f356ff47, 0xe7035ef0c9c34b38) == 0x10e8da4ba4794d68
    && fold(0x5e06dbcab6c184c5, 0x758caa374a6adf4a) == 0x0783de18e70c8e3d
    && fold(0xc609da0e9a4e1757, 0x0ed792d93215eaf0) == 0x120d5bbd60868ff2
    && fold(0x9c66bb27cfda0491, 0xdfb8fcffd17de035) == 0xeea4d9d5fad663da
    && fold(0x0a26da00498ecc34, 0xa7df91a9a1ceffc3) == 0x41deacf29ac3a56a
    && fold(0x272b1269d293cca0, 0x140576f2fb2aca32) == 0x1bfd8e8e9ab2a847
    && fold(0x9c8ad180993dd484, 0x5ebd4e88f07816ef) == 0x4d7735fe52095a0d
  }

  lemma Merged0()
    ensures Fold64(0xd29a037e71599607, 0x0c72836b6a5b844b) == 0x1b1f89bd085175c3
  {
    FoldIs(0xd29a037e71599607, 0x0c72836b6a5b844b, 0xd29a037e71599607, 0x0c72836b6a5b844b, 0x1122e561a117900d, 0x0a3d6cdca946e5ce);
  }

  lemma Merged1()
    ensures Fold64(0x3daecd5d06ae2d1a, 0x27d3102a0d2cb74d) == 0xac10357ee978146d
  {
    FoldIs(0x3daecd5d06ae2d1a, 0x27d3102a0d2cb74d, 0x3daecd5d06ae2d1a, 0x27d3102a0d2cb74d, 0xa588493f971926d2, 0x09987c417e6132bf);
  }

  lemma Merged2()
    ensures Fold64(0x4539838b6f035d02, 0x4c20d4dea0e99ae5) == 0xbf9af3a29072ee99
  {
    FoldIs(0x4539838b6f035d02, 0x4c20d4dea0e99ae5, 0x4539838b6f035d02, 0x4c20d4dea0e99ae5, 0xab0f006f3ac766ca, 0x1495f3cdaab58853);
  }

  lemma Merged3()
    ensures Fold64(0x31299f1538879f4f, 0xfd9fc2aa0d82bcec) == 0x2506ad0c66f4f6ce
  {
    FoldIs(0x31299f1538879f4f, 0xfd9fc2aa0d82bcec, 0x31299f1538879f4f, 0xfd9fc2aa0d82bcec, 0x15b27d7f9f22e0d4, 0x30b4d073f9d6161a);
  }

  lemma Merged4()
    ensures Fold64(0x073754c31239d1d3, 0xf6bd05b5b2575eea) == 0x0f9f86cfd3cff5dc
  {
    FoldIs(0x073754c31239d1d3, 0xf6bd05b5b2575eea, 0x073754c31239d1d3, 0xf6bd05b5b2575eea, 0x096bf9b9e89a44de, 0x06f47f763b55b102);
  }

  lemma Merged5()
    ensures Fold64(0x174f2fa5f356ff47, 0xe7035ef0c9c34b38) == 0x10e8da4ba4794d68
  {
    FoldIs(0x174f2fa5f356ff47, 0xe7035ef0c9c34b38, 0x174f2fa5f356ff47, 0xe7035ef0c9c34b38, 0x05e018dae9e6a488, 0x1508c2914d9fe9e0);
  }

  lemma Merged6()
    ensures Fold64(0x5e06dbcab6c184c5, 0x758caa374a6adf4a) == 0x0783de18e70c8e3d
  {
    FoldIs(0x5e06dbcab6c184c5, 0x758caa374a6adf4a, 0x5e06dbcab6c184c5, 0x758caa374a6adf4a, 0x2caf12a05229fbf2, 0x2b2cccb8b52575cf);
  }

  lemma Merged7()
    ensures Fold64(0xc609da0e9a4e1757, 0x0ed792d93215eaf0) == 0x120d5bbd60868ff2
  {
    FoldIs(0xc609da0e9a4e1757, 0x0ed792d93215eaf0, 0xc609da0e9a4e1757, 0x0ed792d93215eaf0, 0x19761671f2ae6790, 0x0b7b4dcc9228e862);
  }

  lemma Merged8()
    ensures Fold64(0x9c66bb27cfda0491, 0xdfb8fcffd17de035) == 0xeea4d9d5fad663da
  {
    FoldIs(0x9c66bb27cfda0491, 0xdfb8fcffd17de035, 0x9c66bb27cfda0491, 0xdfb8fcffd17de035, 0x660a58ba67eed205, 0x88ae816f9d38b1df);
  }

  lemma Merged9()
    ensures Fold64(0x0a26da00498ecc34, 0xa7df91a9a1ceffc3) == 0x41deacf29ac3a56a
  {
    FoldIs(0x0a26da00498ecc34, 0xa7df91a9a1ceffc3, 0x0a26da00498ecc34, 0xa7df91a9a1ceffc3, 0x477699264b05579c, 0x06a835d4d1c6f2f6);
  }

  lemma Merged10()
    ensures Fold64(0x272b1269d293cca0, 0x140576f2fb2aca32) == 0x1bfd8e8e9ab2a847
  {
    FoldIs(0x272b1269d293cca0, 0x140576f2fb2aca32, 0x272b1269d293cca0, 0x140576f2fb2aca32, 0x18edbdf432943740, 0x0310337aa8269f07);
  }

  lemma Merged11()
    ensures Fold64(0x9c8ad180993dd484, 0x5ebd4e88f07816ef) == 0x4d7735fe52095a0d
  {
    FoldIs(0x9c8ad180993dd484, 0x5ebd4e88f07816ef, 0x9c8ad180993dd484, 0x5ebd4e88f07816ef, 0x74998e91bedcbf3c, 0x39eebb6fecd5e531);
  }

  lemma FoldingsKnown()
    ensures Foldings(Fold64)
  {
    Merged0();
    Merged1();
    Merged2();
    Merged3();
    Merged4();
    Merged5();
    Merged6();
    Merged7();
    Merged8();
    Merged9();
    Merged10();
    Merged11();
  }

  // ----- the default secret, in stripes

  lemma Part0(k: Bytes)
    requires IsSecret(k)
    ensures Eight(Slice(k, 0, 64),
      0xbe4ba423396cfeb8, 0x1cad21f72c81017c, 0xdb979083e96dd4de, 0x1f67b3b7a4a44072,
      0x78e5c0cc4ee679cb, 0x2172ffcc7dd05a82, 0x8e2443f7744608b8, 0x4c263a81e69035e0)
  {
    Secret0(k);
    Secret16(k);
    Secret32(k);
    Secret48(k);
    SliceEight(k, 0,
      0xbe4ba423396cfeb8, 0x1cad21f72c81017c, 0xdb979083e96dd4de, 0x1f67b3b7a4a44072,
      0x78e5c0cc4ee679cb, 0x2172ffcc7dd05a82, 0x8e2443f7744608b8, 0x4c263a81e69035e0);
  }

  lemma Part8(k: Bytes)
    requires IsSecret(k)
    ensures Eight(Slice(k, 8, 64),
      0x1cad21f72c81017c, 0xdb979083e96dd4de, 0x1f67b3b7a4a44072, 0x78e5c0cc4ee679cb,
      0x2172ffcc7dd05a82, 0x8e2443f7744608b8, 0x4c263a81e69035e0, 0xcb00c391bb52283c)
  {
    Secret0(k);
    Secret16(k);
    Secret32(k);
    Secret48(k);
    Secret64(k);
    SliceEight(k, 8,
      0x1cad21f72c81017c, 0xdb979083e96dd4de, 0x1f67b3b7a4a44072, 0x78e5c0cc4ee679cb,
      0x2172ffcc7dd05a82, 0x8e2443f7744608b8, 0x4c263a81e69035e0, 0xcb00c391bb52283c);
  }

  lemma Part16(k: Bytes)
    requires IsSecret(k)
    ensures Eight(Slice(k, 16, 64),
      0xdb979083e96dd4de, 0x1f67b3b7a4a44072, 0x78e5c0cc4ee679cb, 0x2172ffcc7dd05a82,
      0x8e2443f7744608b8, 0x4c263a81e69035e0, 0xcb00c391bb52283c, 0xa32e531b8b65d088)
  {
    Secret16(k);
    Secret32(k);
    Secret48(k);
    Secret64(k);
    SliceEight(k, 16,
      0xdb979083e96dd4de, 0x1f67b3b7a4a44072, 0x78e5c0cc4ee679cb, 0x2172ffcc7dd05a82,
      0x8e2443f7744608b8, 0x4c263a81e69035e0, 0xcb00c391bb52283c, 0xa32e531b8b65d088);
  }

  lemma Part121(k: Bytes)
    requires IsSecret(k)
    ensures Eight(Slice(k, 121, 64),
      0xea647378d9c97e9f, 0xc5c3ebd33483acc5, 0x17eb6313faffa081, 0xd349daf0b751dd0d,
      0x2b9e68d429265516, 0x8ffca1477d58be16, 0x45ce31d07ad1b8f8, 0xaf280416958f3acb)
  {
    Secret121(k);
    Secret137(k);
    Secret153(k);
    Secret169(k);
    SliceEight(k, 121,
      0xea647378d9c97e9f, 0xc5c3ebd33483acc5, 0x17eb6313faffa081, 0xd349daf0b751dd0d,
      0x2b9e68d429265516, 0x8ffca1477d58be16, 0x45ce31d07ad1b8f8, 0xaf280416958f3acb);
  }

  /** Zeros are zeros in every stripe. */
  lemma ZeroPart(data: Bytes, x: nat)
    requires AllZero(data) && x + 64 <= |data|
    ensures Eight(data[x..x + 64], 0, 0, 0, 0, 0, 0, 0, 0)
  {
    ZeroEight(data[x..x + 64]);
  }

  // ----- zeros under the default secret

  lemma ZeroStripe1(mixing: Mixing, acc: Acc, input: Bytes, s: Bytes)
    requires Mixes(mixing) && acc == LANES0
    requires Eight(input, 0, 0, 0, 0, 0, 0, 0, 0)
    requires Eight(s,
      0xbe4ba423396cfeb8, 0x1cad21f72c81017c, 0xdb979083e96dd4de, 0x1f67b3b7a4a44072,
      0x78e5c0cc4ee679cb, 0x2172ffcc7dd05a82, 0x8e2443f7744608b8, 0x4c263a81e69035e0)
    ensures Accumulate512(mixing, acc, input, s) == LANES1
  {
    LanesAre(mixing, acc, input, s, LANES2,
      LANES3,
      LANES1);
  }

  lemma ZeroStripe2(mixing: Mixing, acc: Acc, input: Bytes, s: Bytes)
    requires Mixes(mixing) && acc == LANES1
    requires Eight(input, 0, 0, 0, 0, 0, 0, 0, 0)
    requires Eight(s,
      0x1cad21f72c81017c, 0xdb979083e96dd4de, 0x1f67b3b7a4a44072, 0x78e5c0cc4ee679cb,
      0x2172ffcc7dd05a82, 0x8e2443f7744608b8, 0x4c263a81e69035e0, 0xcb00c391bb52283c)
    ensures Accumulate512(mixing, acc, input, s) == LANES4
  {
    LanesAre(mixing, acc, input, s, LANES2,
      LANES5,
      LANES4);
  }

  lemma ZeroStripe3(mixing: Mixing, acc: Acc, input: Bytes, s: Bytes)
    requires Mixes(mixing) && acc == LANES4
    requires Eight(input, 0, 0, 0, 0, 0, 0, 0, 0)
    requires Eight(s,
      0xdb979083e96dd4de, 0x1f67b3b7a4a44072, 0x78e5c0cc4ee679cb, 0x2172ffcc7dd05a82,
      0x8e2443f7744608b8, 0x4c263a81e69035e0, 0xcb00c391bb52283c, 0xa32e531b8b65d088)
    ensures Accumulate512(mixing, acc, input, s) == LANES6
  {
    LanesAre(mixing, acc, input, s, LANES2,
      LANES7,
      LANES6);
  }

  lemma ZeroAfter1(mixing: Mixing, scrambling: Scrambling, fold: Folding, data: Bytes, k: Bytes)
    requires IsSecret(k) && Mixes(mixing) && AllZero(data) && |data| >= 64
    ensures Reaches(mixing, scrambling, fold, k, data, 1, LANES1, 1)
  {
    AfterStart(mixing, scrambling, fold, k, data);
    Part0(k);
    ZeroPart(data, 0);
    ZeroStripe1(mixing, LANES0, data[0..64], Slice(k, 0, 64));
    AfterNext(mixing, scrambling, fold, k, data, 0, data[0..64], LANES0, 0, LANES1);
  }

  lemma ZeroAfter2(mixing: Mixing, scrambling: Scrambling, fold: Folding, data: Bytes, k: Bytes)
    requires IsSecret(k) && Mixes(mixing) && AllZero(data) && |data| >= 128
    ensures Reaches(mixing, scrambling, fold, k, data, 2, LANES4, 2)
  {
    ZeroAfter1(mixing, scrambling, fold, data, k);
    Part8(k);
    ZeroPart(data, 64);
    ZeroStripe2(mixing, LANES1, data[64..128], Slice(k, 8, 64));
    AfterNext(mixing, scrambling, fold, k, data, 1, data[64..128], LANES1, 1, LANES4);
  }

  lemma ZeroAfter3(mixing: Mixing, scrambling: Scrambling, fold: Folding, data: Bytes, k: Bytes)
    requires IsSecret(k) && Mixes(mixing) && AllZero(data) && |data| >= 192
    ensures Reaches(mixing, scrambling, fold, k, data, 3, LANES6, 3)
  {
    ZeroAfter2(mixing, scrambling, fold, data, k);
    Part16(k);
    ZeroPart(data, 128);
    ZeroStripe3(mixing, LANES4, data[128..192], Slice(k, 16, 64));
    AfterNext(mixing, scrambling, fold, k, data, 2, data[128..192], LANES4, 2, LANES6);
  }

  lemma ZeroLast(mixing: Mixing, acc: Acc, input: Bytes, s: Bytes)
    requires Mixes(mixing) && acc == LANES6
    requires Eight(input, 0, 0, 0, 0, 0, 0, 0, 0)
    requires Eight(s,
      0xea647378d9c97e9f, 0xc5c3ebd33483acc5, 0x17eb6313faffa081, 0xd349daf0b751dd0d,
      0x2b9e68d429265516, 0x8ffca1477d58be16, 0x45ce31d07ad1b8f8, 0xaf280416958f3acb)
    ensures Accumulate512(mixing, acc, input, s) == LANES8
  {
    LanesAre(mixing, acc, input, s, LANES2,
      LANES9,
      LANES8);
  }

  lemma ZeroMergePair0(fold: Folding, acc: Acc, k: Bytes)
    requires IsSecret(k) && Foldings(fold) && acc[0] == 13785198926103077163 && acc[1] == 12120015289681905570
    ensures Mix2Accs(fold, acc[0], acc[1], k, 11) == 0x1b1f89bd085175c3
  {
    Secret3(k);
    Secret19(k);
  }

  lemma ZeroMergePair1(fold: Folding, acc: Acc, k: Bytes)
    requires IsSecret(k) && Foldings(fold) && acc[2] == 15841137096465947326 && acc[3] == 17836948683970345731
    ensures Mix2Accs(fold, acc[2], acc[3], k, 27) == 0xac10357ee978146d
  {
    Secret19(k);
    Secret35(k);
  }

  lemma ZeroMergePair2(fold: Folding, acc: Acc, k: Bytes)
    requires IsSecret(k) && Foldings(fold) && acc[4] == 230030657806176639 && acc[5] == 15858639183282859409
    ensures Mix2Accs(fold, acc[4], acc[5], k, 43) == 0xbf9af3a29072ee99
  {
    Secret35(k);
    Secret51(k);
  }

  lemma ZeroMergePair3(fold: Folding, acc: Acc, k: Bytes)
    requires IsSecret(k) && Foldings(fold) && acc[6] == 7134162887894703785 && acc[7] == 10975072597619846487
    ensures Mix2Accs(fold, acc[6], acc[7], k, 59) == 0x2506ad0c66f4f6ce
  {
    Secret51(k);
    Secret67(k);
  }

  lemma ZeroMergeSum(fold: Folding, acc: Acc, k: Bytes)
    requires |k| >= SECRET_SIZE_MIN
    requires Mix2Accs(fold, acc[0], acc[1], k, 11) == 0x1b1f89bd085175c3
    requires Mix2Accs(fold, acc[2], acc[3], k, 27) == 0xac10357ee978146d
    requires Mix2Accs(fold, acc[4], acc[5], k, 43) == 0xbf9af3a29072ee99
    requires Mix2Accs(fold, acc[6], acc[7], k, 59) == 0x2506ad0c66f4f6ce
    ensures MergeAccs(fold, acc, k, 241) == 0x5c5b5d5d40c59ce3
  {
  }

  lemma ZeroMerge(fold: Folding, acc: Acc, k: Bytes)
    requires IsSecret(k) && Foldings(fold) && acc == LANES8
    ensures MergeAccs(fold, acc, k, 241) == 0x5c5b5d5d40c59ce3
  {
    ZeroMergePair0(fold, acc, k);
    ZeroMergePair1(fold, acc, k);
    ZeroMergePair2(fold, acc, k);
    ZeroMergePair3(fold, acc, k);
    ZeroMergeSum(fold, acc, k);
  }

  lemma ZeroLong(mixing: Mixing, scrambling: Scrambling, fold: Folding, data: Bytes, k: Bytes, s: Bytes, seed: bv64)
    requires IsSecret(k) && Mixes(mixing) && Foldings(fold) && AllZero(data) && |data| == 241 && |s| >= SECRET_SIZE_MIN
    ensures Hash(Xxh3With(mixing, scrambling, fold), data, s, seed, k) == 0x5c5b5d5d40c59ce3
  {
    ZeroAfter3(mixing, scrambling, fold, data, k);
    Part121(k);
    ZeroPart(data, 177);
    assert data[177..] == data[177..241];
    ZeroLast(mixing, LANES6, data[177..], Slice(k, |k| - 71, 64));
    LastStripe(mixing, scrambling, fold, k, data, 3, LANES6, 3, data[177..], LANES8);
    ZeroMerge(fold, LANES8, k);
    HashIs(mixing, scrambling, fold, k, data, s, seed, LANES8);
  }

  // ----- an input that varies

  lemma SamplePart0(k: Bytes)
    requires IsSecret(k)
    ensures Eight(Slice(Sample(k, 248), 0, 64),
      0x1cad21f72c81017c, 0xdb979083e96dd4de, 0x1f67b3b7a4a44072, 0x78e5c0cc4ee679cb,
      0x2172ffcc7dd05a82, 0x8e2443f7744608b8, 0x4c263a81e69035e0, 0xcb00c391bb52283c)
  {
    Secret0(k);
    Secret16(k);
    Secret32(k);
    Secret48(k);
    Secret64(k);
    SampleRead(k, 248, 0, 8);
    SampleRead(k, 248, 8, 16);
    SampleRead(k, 248, 16, 24);
    SampleRead(k, 248, 24, 32);
    SampleRead(k, 248, 32, 40);
    SampleRead(k, 248, 40, 48);
    SampleRead(k, 248, 48, 56);
    SampleRead(k, 248, 56, 64);
    SliceEight(Sample(k, 248), 0,
      0x1cad21f72c81017c, 0xdb979083e96dd4de, 0x1f67b3b7a4a44072, 0x78e5c0cc4ee679cb,
      0x2172ffcc7dd05a82, 0x8e2443f7744608b8, 0x4c263a81e69035e0, 0xcb00c391bb52283c);
  }

  lemma SamplePart64(k: Bytes)
    requires IsSecret(k)
    ensures Eight(Slice(Sample(k, 248), 64, 64),
      0xa32e531b8b65d088, 0x4ef90da297486471, 0xd8acdea946ef1938, 0x3f349ce33f76faa8,
      0x1d4f0bc7c7bbdcf9, 0x3159b4cd4be0518a, 0x647378d9c97e9fc8, 0xc3ebd33483acc5ea)
  {
    Secret64(k);
    Secret80(k);
    Secret96(k);
    Secret112(k);
    Secret128(k);
    SampleRead(k, 248, 64, 72);
    SampleRead(k, 248, 72, 80);
    SampleRead(k, 248, 80, 88);
    SampleRead(k, 248, 88, 96);
    SampleRead(k, 248, 96, 104);
    SampleRead(k, 248, 104, 112);
    SampleRead(k, 248, 112, 120);
    SampleRead(k, 248, 120, 128);
    SliceEight(Sample(k, 248), 64,
      0xa32e531b8b65d088, 0x4ef90da297486471, 0xd8acdea946ef1938, 0x3f349ce33f76faa8,
      0x1d4f0bc7c7bbdcf9, 0x3159b4cd4be0518a, 0x647378d9c97e9fc8, 0xc3ebd33483acc5ea);
  }

  lemma SamplePart128(k: Bytes)
    requires IsSecret(k)
    ensures Eight(Slice(Sample(k, 248), 128, 64),
      0xeb6313faffa081c5, 0x49daf0b751dd0d17, 0x9e68d429265516d3, 0xfca1477d58be162b,
      0xce31d07ad1b8f88f, 0x280416958f3acb45, 0x7e404bbbcafbd7af, 0xbe4ba423396cfeb8)
  {
    Secret0(k);
    Secret128(k);
    Secret144(k);
    Secret160(k);
    Secret176(k);
    SampleRead(k, 248, 128, 136);
    SampleRead(k, 248, 136, 144);
    SampleRead(k, 248, 144, 152);
    SampleRead(k, 248, 152, 160);
    SampleRead(k, 248, 160, 168);
    SampleRead(k, 248, 168, 176);
    SampleRead(k, 248, 176, 184);
    SampleRead(k, 248, 184, 0);
    SliceEight(Sample(k, 248), 128,
      0xeb6313faffa081c5, 0x49daf0b751dd0d17, 0x9e68d429265516d3, 0xfca1477d58be162b,
      0xce31d07ad1b8f88f, 0x280416958f3acb45, 0x7e404bbbcafbd7af, 0xbe4ba423396cfeb8);
  }

  lemma SamplePart184(k: Bytes)
    requires IsSecret(k)
    ensures Eight(Slice(Sample(k, 248), 184, 64),
      0xbe4ba423396cfeb8, 0x1cad21f72c81017c, 0xdb979083e96dd4de, 0x1f67b3b7a4a44072,
      0x78e5c0cc4ee679cb, 0x2172ffcc7dd05a82, 0x8e2443f7744608b8, 0x4c263a81e69035e0)
  {
    Secret0(k);
    Secret16(k);
    Secret32(k);
    Secret48(k);
    SampleRead(k, 248, 184, 0);
    SampleRead(k, 248, 192, 8);
    SampleRead(k, 248, 200, 16);
    SampleRead(k, 248, 208, 24);
    SampleRead(k, 248, 216, 32);
    SampleRead(k, 248, 224, 40);
    SampleRead(k, 248, 232, 48);
    SampleRead(k, 248, 240, 56);
    SliceEight(Sample(k, 248), 184,
      0xbe4ba423396cfeb8, 0x1cad21f72c81017c, 0xdb979083e96dd4de, 0x1f67b3b7a4a44072,
      0x78e5c0cc4ee679cb, 0x2172ffcc7dd05a82, 0x8e2443f7744608b8, 0x4c263a81e69035e0);
  }

  lemma SampleStripe1(mixing: Mixing, acc: Acc, input: Bytes, s: Bytes)
    requires Mixes(mixing) && acc == LANES0
    requires Eight(input,
      0x1cad21f72c81017c, 0xdb979083e96dd4de, 0x1f67b3b7a4a44072, 0x78e5c0cc4ee679cb,
      0x2172ffcc7dd05a82, 0x8e2443f7744608b8, 0x4c263a81e69035e0, 0xcb00c391bb52283c)
    requires Eight(s,
      0xbe4ba423396cfeb8, 0x1cad21f72c81017c, 0xdb979083e96dd4de, 0x1f67b3b7a4a44072,
      0x78e5c0cc4ee679cb, 0x2172ffcc7dd05a82, 0x8e2443f7744608b8, 0x4c263a81e69035e0)
    ensures Accumulate512(mixing, acc, input, s) == LANES10
  {
    LanesAre(mixing, acc, input, s, LANES11,
      LANES12,
      LANES10);
  }

  lemma SampleStripe2(mixing: Mixing, acc: Acc, input: Bytes, s: Bytes)
    requires Mixes(mixing) && acc == LANES10
    requires Eight(input,
      0xa32e531b8b65d088, 0x4ef90da297486471, 0xd8acdea946ef1938, 0x3f349ce33f76faa8,
      0x1d4f0bc7c7bbdcf9, 0x3159b4cd4be0518a, 0x647378d9c97e9fc8, 0xc3ebd33483acc5ea)
    requires Eight(s,
      0x1cad21f72c81017c, 0xdb979083e96dd4de, 0x1f67b3b7a4a44072, 0x78e5c0cc4ee679cb,
      0x2172ffcc7dd05a82, 0x8e2443f7744608b8, 0x4c263a81e69035e0, 0xcb00c391bb52283c)
    ensures Accumulate512(mixing, acc, input, s) == LANES13
  {
    LanesAre(mixing, acc, input, s, LANES14,
      LANES15,
      LANES13);
  }

  lemma SampleStripe3(mixing: Mixing, acc: Acc, input: Bytes, s: Bytes)
    requires Mixes(mixing) && acc == LANES13
    requires Eight(input,
      0xeb6313faffa081c5, 0x49daf0b751dd0d17, 0x9e68d429265516d3, 0xfca1477d58be162b,
      0xce31d07ad1b8f88f, 0x280416958f3acb45, 0x7e404bbbcafbd7af, 0xbe4ba423396cfeb8)
    requires Eight(s,
      0xdb979083e96dd4de, 0x1f67b3b7a4a44072, 0x78e5c0cc4ee679cb, 0x2172ffcc7dd05a82,
      0x8e2443f7744608b8, 0x4c263a81e69035e0, 0xcb00c391bb52283c, 0xa32e531b8b65d088)
    ensures Accumulate512(mixing, acc, input, s) == LANES16
  {
    LanesAre(mixing, acc, input, s, LANES17,
      LANES18,
      LANES16);
  }

  /** data is the sample, as its four stripes are read. */
  ghost predicate FourParts(data: Bytes, k: Bytes) {
    && |data| == 248 && IsSecret(k)
    && Eight(data[0..64],
      0x1cad21f72c81017c, 0xdb979083e96dd4de, 0x1f67b3b7a4a44072, 0x78e5c0cc4ee679cb,
      0x2172ffcc7dd05a82, 0x8e2443f7744608b8, 0x4c263a81e69035e0, 0xcb00c391bb52283c)
    && Eight(data[64..128],
      0xa32e531b8b65d088, 0x4ef90da297486471, 0xd8acdea946ef1938, 0x3f349ce33f76faa8,
      0x1d4f0bc7c7bbdcf9, 0x3159b4cd4be0518a, 0x647378d9c97e9fc8, 0xc3ebd33483acc5ea)
    && Eight(data[128..192],
      0xeb6313faffa081c5, 0x49daf0b751dd0d17, 0x9e68d429265516d3, 0xfca1477d58be162b,
      0xce31d07ad1b8f88f, 0x280416958f3acb45, 0x7e404bbbcafbd7af, 0xbe4ba423396cfeb8)
    && Eight(data[184..248],
      0xbe4ba423396cfeb8, 0x1cad21f72c81017c, 0xdb979083e96dd4de, 0x1f67b3b7a4a44072,
      0x78e5c0cc4ee679cb, 0x2172ffcc7dd05a82, 0x8e2443f7744608b8, 0x4c263a81e69035e0)
  }

  lemma SampleHasParts(k: Bytes)
    requires IsSecret(k)
    ensures FourParts(Sample(k, 248), k)
  {
    SamplePart0(k);
    SamplePart64(k);
    SamplePart128(k);
    SamplePart184(k);
  }

  lemma SampleAfter1(mixing: Mixing, scrambling: Scrambling, fold: Folding, data: Bytes, k: Bytes)
    requires FourParts(data, k) && Mixes(mixing)
    ensures Reaches(mixing, scrambling, fold, k, data, 1, LANES10, 1)
  {
    AfterStart(mixing, scrambling, fold, k, data);
    Part0(k);
    SampleStripe1(mixing, LANES0, data[0..64], Slice(k, 0, 64));
    AfterNext(mixing, scrambling, fold, k, data, 0, data[0..64], LANES0, 0, LANES10);
  }

  lemma SampleAfter2(mixing: Mixing, scrambling: Scrambling, fold: Folding, data: Bytes, k: Bytes)
    requires FourParts(data, k) && Mixes(mixing)
    ensures Reaches(mixing, scrambling, fold, k, data, 2, LANES13, 2)
  {
    SampleAfter1(mixing, scrambling, fold, data, k);
    Part8(k);
    SampleStripe2(mixing, LANES10, data[64..128], Slice(k, 8, 64));
    AfterNext(mixing, scrambling, fold, k, data, 1, data[64..128], LANES10, 1, LANES13);
  }

  lemma SampleAfter3(mixing: Mixing, scrambling: Scrambling, fold: Folding, data: Bytes, k: Bytes)
    requires FourParts(data, k) && Mixes(mixing)
    ensures Reaches(mixing, scrambling, fold, k, data, 3, LANES16, 3)
  {
    SampleAfter2(mixing, scrambling, fold, data, k);
    Part16(k);
    SampleStripe3(mixing, LANES13, data[128..192], Slice(k, 16, 64));
    AfterNext(mixing, scrambling, fold, k, data, 2, data[128..192], LANES13, 2, LANES16);
  }

  lemma SampleLast(mixing: Mixing, acc: Acc, input: Bytes, s: Bytes)
    requires Mixes(mixing) && acc == LANES16
    requires Eight(input,
      0xbe4ba423396cfeb8, 0x1cad21f72c81017c, 0xdb979083e96dd4de, 0x1f67b3b7a4a44072,
      0x78e5c0cc4ee679cb, 0x2172ffcc7dd05a82, 0x8e2443f7744608b8, 0x4c263a81e69035e0)
    requires Eight(s,
      0xea647378d9c97e9f, 0xc5c3ebd33483acc5, 0x17eb6313faffa081, 0xd349daf0b751dd0d,
      0x2b9e68d429265516, 0x8ffca1477d58be16, 0x45ce31d07ad1b8f8, 0xaf280416958f3acb)
    ensures Accumulate512(mixing, acc, input, s) == LANES19
  {
    LanesAre(mixing, acc, input, s, LANES20,
      LANES21,
      LANES19);
  }

  lemma SampleMergePair0(fold: Folding, acc: Acc, k: Bytes)
    requires IsSecret(k) && Foldings(fold) && acc[0] == 7702152481322051327 && acc[1] == 5980067195181849859
    ensures Mix2Accs(fold, acc[0], acc[1], k, 11) == 0x0f9f86cfd3cff5dc
  {
    Secret3(k);
    Secret19(k);
  }

  lemma SampleMergePair1(fold: Folding, acc: Acc, k: Bytes)
    requires IsSecret(k) && Foldings(fold) && acc[2] == 17381331301896112355 && acc[3] == 3988461422425376630
    ensures Mix2Accs(fold, acc[2], acc[3], k, 27) == 0x10e8da4ba4794d68
  {
    Secret19(k);
    Secret35(k);
  }

  lemma SampleMergePair2(fold: Folding, acc: Acc, k: Bytes)
    requires IsSecret(k) && Foldings(fold) && acc[4] == 1733432770845100216 && acc[5] == 16553344065654564926
    ensures Mix2Accs(fold, acc[4], acc[5], k, 43) == 0x0783de18e70c8e3d
  {
    Secret35(k);
    Secret51(k);
  }

  lemma SampleMergePair3(fold: Folding, acc: Acc, k: Bytes)
    requires IsSecret(k) && Foldings(fold) && acc[6] == 10674065766148773553 && acc[7] == 7712161552359914315
    ensures Mix2Accs(fold, acc[6], acc[7], k, 59) == 0x120d5bbd60868ff2
  {
    Secret51(k);
    Secret67(k);
  }

  lemma SampleMergeSum(fold: Folding, acc: Acc, k: Bytes)
    requires |k| >= SECRET_SIZE_MIN
    requires Mix2Accs(fold, acc[0], acc[1], k, 11) == 0x0f9f86cfd3cff5dc
    requires Mix2Accs(fold, acc[2], acc[3], k, 27) == 0x10e8da4ba4794d68
    requires Mix2Accs(fold, acc[4], acc[5], k, 43) == 0x0783de18e70c8e3d
    requires Mix2Accs(fold, acc[6], acc[7], k, 59) == 0x120d5bbd60868ff2
    ensures MergeAccs(fold, acc, k, 248) == 0x0af6ca9c8b6923f0
  {
  }

  lemma SampleMerge(fold: Folding, acc: Acc, k: Bytes)
    requires IsSecret(k) && Foldings(fold) && acc == LANES19
    ensures MergeAccs(fold, acc, k, 248) == 0x0af6ca9c8b6923f0
  {
    SampleMergePair0(fold, acc, k);
    SampleMergePair1(fold, acc, k);
    SampleMergePair2(fold, acc, k);
    SampleMergePair3(fold, acc, k);
    SampleMergeSum(fold, acc, k);
  }

  lemma SampleLong(mixing: Mixing, scrambling: Scrambling, fold: Folding, data: Bytes, k: Bytes, s: Bytes, seed: bv64)
    requires IsSecret(k) && Mixes(mixing) && Foldings(fold) && FourParts(data, k) && |data| == 248 && |s| >= SECRET_SIZE_MIN
    ensures Hash(Xxh3With(mixing, scrambling, fold), data, s, seed, k) == 0x0af6ca9c8b6923f0
  {
    SampleAfter3(mixing, scrambling, fold, data, k);
    Part121(k);
    assert data[184..] == data[184..248];
    SampleLast(mixing, LANES16, data[184..], Slice(k, |k| - 71, 64));
    LastStripe(mixing, scrambling, fold, k, data, 3, LANES16, 3, data[184..], LANES19);
    SampleMerge(fold, LANES19, k);
    HashIs(mixing, scrambling, fold, k, data, s, seed, LANES19);
  }

  // ----- a secret of the user's, of the least size: the end of the default one

  lemma OwnReads(k: Bytes, own: Bytes, i: nat)
    requires IsSecret(k) && own == k[56..] && i + 8 <= |own|
    ensures |own| == 136 && ReadLE64(own, i) == ReadLE64(k, 56 + i)
  {
    ReadPart(k, 56, 192, 56 + i, 8);
    assert own == k[56..192];
  }

  lemma OwnPart0(k: Bytes, own: Bytes)
    requires IsSecret(k) && own == k[56..]
    ensures |own| == 136 && Eight(Slice(own, 0, 64),
      0x4c263a81e69035e0, 0xcb00c391bb52283c, 0xa32e531b8b65d088, 0x4ef90da297486471,
      0xd8acdea946ef1938, 0x3f349ce33f76faa8, 0x1d4f0bc7c7bbdcf9, 0x3159b4cd4be0518a)
  {
    Secret48(k);
    Secret64(k);
    Secret80(k);
    Secret96(k);
    Secret112(k);
    OwnReads(k, own, 0);
    OwnReads(k, own, 8);
    OwnReads(k, own, 16);
    OwnReads(k, own, 24);
    OwnReads(k, own, 32);
    OwnReads(k, own, 40);
    OwnReads(k, own, 48);
    OwnReads(k, own, 56);
    SliceEight(own, 0,
      0x4c263a81e69035e0, 0xcb00c391bb52283c, 0xa32e531b8b65d088, 0x4ef90da297486471,
      0xd8acdea946ef1938, 0x3f349ce33f76faa8, 0x1d4f0bc7c7bbdcf9, 0x3159b4cd4be0518a);
  }

  lemma OwnPart8(k: Bytes, own: Bytes)
    requires IsSecret(k) && own == k[56..]
    ensures |own| == 136 && Eight(Slice(own, 8, 64),
      0xcb00c391bb52283c, 0xa32e531b8b65d088, 0x4ef90da297486471, 0xd8acdea946ef1938,
      0x3f349ce33f76faa8, 0x1d4f0bc7c7bbdcf9, 0x3159b4cd4be0518a, 0x647378d9c97e9fc8)
  {
    Secret64(k);
    Secret80(k);
    Secret96(k);
    Secret112(k);
    OwnReads(k, own, 8);
    OwnReads(k, own, 16);
    OwnReads(k, own, 24);
    OwnReads(k, own, 32);
    OwnReads(k, own, 40);
    OwnReads(k, own, 48);
    OwnReads(k, own, 56);
    OwnReads(k, own, 64);
    SliceEight(own, 8,
      0xcb00c391bb52283c, 0xa32e531b8b65d088, 0x4ef90da297486471, 0xd8acdea946ef1938,
      0x3f349ce33f76faa8, 0x1d4f0bc7c7bbdcf9, 0x3159b4cd4be0518a, 0x647378d9c97e9fc8);
  }

  lemma OwnPart16(k: Bytes, own: Bytes)
    requires IsSecret(k) && own == k[56..]
    ensures |own| == 136 && Eight(Slice(own, 16, 64),
      0xa32e531b8b65d088, 0x4ef90da297486471, 0xd8acdea946ef1938, 0x3f349ce33f76faa8,
      0x1d4f0bc7c7bbdcf9, 0x3159b4cd4be0518a, 0x647378d9c97e9fc8, 0xc3ebd33483acc5ea)
  {
    Secret64(k);
    Secret80(k);
    Secret96(k);
    Secret112(k);
    Secret128(k);
    OwnReads(k, own, 16);
    OwnReads(k, own, 24);
    OwnReads(k, own, 32);
    OwnReads(k, own, 40);
    OwnReads(k, own, 48);
    OwnReads(k, own, 56);
    OwnReads(k, own, 64);
    OwnReads(k, own, 72);
    SliceEight(own, 16,
      0xa32e531b8b65d088, 0x4ef90da297486471, 0xd8acdea946ef1938, 0x3f349ce33f76faa8,
      0x1d4f0bc7c7bbdcf9, 0x3159b4cd4be0518a, 0x647378d9c97e9fc8, 0xc3ebd33483acc5ea);
  }

  lemma OwnPart24(k: Bytes, own: Bytes)
    requires IsSecret(k) && own == k[56..]
    ensures |own| == 136 && Eight(Slice(own, 24, 64),
      0x4ef90da297486471, 0xd8acdea946ef1938, 0x3f349ce33f76faa8, 0x1d4f0bc7c7bbdcf9,
      0x3159b4cd4be0518a, 0x647378d9c97e9fc8, 0xc3ebd33483acc5ea, 0xeb6313faffa081c5)
  {
    Secret80(k);
    Secret96(k);
    Secret112(k);
    Secret128(k);
    OwnReads(k, own, 24);
    OwnReads(k, own, 32);
    OwnReads(k, own, 40);
    OwnReads(k, own, 48);
    OwnReads(k, own, 56);
    OwnReads(k, own, 64);
    OwnReads(k, own, 72);
    OwnReads(k, own, 80);
    SliceEight(own, 24,
      0x4ef90da297486471, 0xd8acdea946ef1938, 0x3f349ce33f76faa8, 0x1d4f0bc7c7bbdcf9,
      0x3159b4cd4be0518a, 0x647378d9c97e9fc8, 0xc3ebd33483acc5ea, 0xeb6313faffa081c5);
  }

  lemma OwnPart32(k: Bytes, own: Bytes)
    requires IsSecret(k) && own == k[56..]
    ensures |own| == 136 && Eight(Slice(own, 32, 64),
      0xd8acdea946ef1938, 0x3f349ce33f76faa8, 0x1d4f0bc7c7bbdcf9, 0x3159b4cd4be0518a,
      0x647378d9c97e9fc8, 0xc3ebd33483acc5ea, 0xeb6313faffa081c5, 0x49daf0b751dd0d17)
  {
    Secret80(k);
    Secret96(k);
    Secret112(k);
    Secret128(k);
    Secret144(k);
    OwnReads(k, own, 32);
    OwnReads(k, own, 40);
    OwnReads(k, own, 48);
    OwnReads(k, own, 56);
    OwnReads(k, own, 64);
    OwnReads(k, own, 72);
    OwnReads(k, own, 80);
    OwnReads(k, own, 88);
    SliceEight(own, 32,
      0xd8acdea946ef1938, 0x3f349ce33f76faa8, 0x1d4f0bc7c7bbdcf9, 0x3159b4cd4be0518a,
      0x647378d9c97e9fc8, 0xc3ebd33483acc5ea, 0xeb6313faffa081c5, 0x49daf0b751dd0d17);
  }

  lemma OwnPart40(k: Bytes, own: Bytes)
    requires IsSecret(k) && own == k[56..]
    ensures |own| == 136 && Eight(Slice(own, 40, 64),
      0x3f349ce33f76faa8, 0x1d4f0bc7c7bbdcf9, 0x3159b4cd4be0518a, 0x647378d9c97e9fc8,
      0xc3ebd33483acc5ea, 0xeb6313faffa081c5, 0x49daf0b751dd0d17, 0x9e68d429265516d3)
  {
    Secret96(k);
    Secret112(k);
    Secret128(k);
    Secret144(k);
    OwnReads(k, own, 40);
    OwnReads(k, own, 48);
    OwnReads(k, own, 56);
    OwnReads(k, own, 64);
    OwnReads(k, own, 72);
    OwnReads(k, own, 80);
    OwnReads(k, own, 88);
    OwnReads(k, own, 96);
    SliceEight(own, 40,
      0x3f349ce33f76faa8, 0x1d4f0bc7c7bbdcf9, 0x3159b4cd4be0518a, 0x647378d9c97e9fc8,
      0xc3ebd33483acc5ea, 0xeb6313faffa081c5, 0x49daf0b751dd0d17, 0x9e68d429265516d3);
  }

  lemma OwnPart48(k: Bytes, own: Bytes)
    requires IsSecret(k) && own == k[56..]
    ensures |own| == 136 && Eight(Slice(own, 48, 64),
      0x1d4f0bc7c7bbdcf9, 0x3159b4cd4be0518a, 0x647378d9c97e9fc8, 0xc3ebd33483acc5ea,
      0xeb6313faffa081c5, 0x49daf0b751dd0d17, 0x9e68d429265516d3, 0xfca1477d58be162b)
  {
    Secret96(k);
    Secret112(k);
    Secret128(k);
    Secret144(k);
    Secret160(k);
    OwnReads(k, own, 48);
    OwnReads(k, own, 56);
    OwnReads(k, own, 64);
    OwnReads(k, own, 72);
    OwnReads(k, own, 80);
    OwnReads(k, own, 88);
    OwnReads(k, own, 96);
    OwnReads(k, own, 104);
    SliceEight(own, 48,
      0x1d4f0bc7c7bbdcf9, 0x3159b4cd4be0518a, 0x647378d9c97e9fc8, 0xc3ebd33483acc5ea,
      0xeb6313faffa081c5, 0x49daf0b751dd0d17, 0x9e68d429265516d3, 0xfca1477d58be162b);
  }

  lemma OwnPart56(k: Bytes, own: Bytes)
    requires IsSecret(k) && own == k[56..]
    ensures |own| == 136 && Eight(Slice(own, 56, 64),
      0x3159b4cd4be0518a, 0x647378d9c97e9fc8, 0xc3ebd33483acc5ea, 0xeb6313faffa081c5,
      0x49daf0b751dd0d17, 0x9e68d429265516d3, 0xfca1477d58be162b, 0xce31d07ad1b8f88f)
  {
    Secret112(k);
    Secret128(k);
    Secret144(k);
    Secret160(k);
    OwnReads(k, own, 56);
    OwnReads(k, own, 64);
    OwnReads(k, own, 72);
    OwnReads(k, own, 80);
    OwnReads(k, own, 88);
    OwnReads(k, own, 96);
    OwnReads(k, own, 104);
    OwnReads(k, own, 112);
    SliceEight(own, 56,
      0x3159b4cd4be0518a, 0x647378d9c97e9fc8, 0xc3ebd33483acc5ea, 0xeb6313faffa081c5,
      0x49daf0b751dd0d17, 0x9e68d429265516d3, 0xfca1477d58be162b, 0xce31d07ad1b8f88f);
  }

  lemma OwnPart64(k: Bytes, own: Bytes)
    requires IsSecret(k) && own == k[56..]
    ensures |own| == 136 && Eight(Slice(own, 64, 64),
      0x647378d9c97e9fc8, 0xc3ebd33483acc5ea, 0xeb6313faffa081c5, 0x49daf0b751dd0d17,
      0x9e68d429265516d3, 0xfca1477d58be162b, 0xce31d07ad1b8f88f, 0x280416958f3acb45)
  {
    Secret112(k);
    Secret128(k);
    Secret144(k);
    Secret160(k);
    Secret176(k);
    OwnReads(k, own, 64);
    OwnReads(k, own, 72);
    OwnReads(k, own, 80);
    OwnReads(k, own, 88);
    OwnReads(k, own, 96);
    OwnReads(k, own, 104);
    OwnReads(k, own, 112);
    OwnReads(k, own, 120);
    SliceEight(own, 64,
      0x647378d9c97e9fc8, 0xc3ebd33483acc5ea, 0xeb6313faffa081c5, 0x49daf0b751dd0d17,
      0x9e68d429265516d3, 0xfca1477d58be162b, 0xce31d07ad1b8f88f, 0x280416958f3acb45);
  }

  lemma OwnPart65(k: Bytes, own: Bytes)
    requires IsSecret(k) && own == k[56..]
    ensures |own| == 136 && Eight(Slice(own, 65, 64),
      0xea647378d9c97e9f, 0xc5c3ebd33483acc5, 0x17eb6313faffa081, 0xd349daf0b751dd0d,
      0x2b9e68d429265516, 0x8ffca1477d58be16, 0x45ce31d07ad1b8f8, 0xaf280416958f3acb)
  {
    Secret121(k);
    Secret137(k);
    Secret153(k);
    Secret169(k);
    OwnReads(k, own, 65);
    OwnReads(k, own, 73);
    OwnReads(k, own, 81);
    OwnReads(k, own, 89);
    OwnReads(k, own, 97);
    OwnReads(k, own, 105);
    OwnReads(k, own, 113);
    OwnReads(k, own, 121);
    SliceEight(own, 65,
      0xea647378d9c97e9f, 0xc5c3ebd33483acc5, 0x17eb6313faffa081, 0xd349daf0b751dd0d,
      0x2b9e68d429265516, 0x8ffca1477d58be16, 0x45ce31d07ad1b8f8, 0xaf280416958f3acb);
  }

  lemma OwnStripe1(mixing: Mixing, acc: Acc, input: Bytes, s: Bytes)
    requires Mixes(mixing) && acc == LANES0
    requires Eight(input, 0, 0, 0, 0, 0, 0, 0, 0)
    requires Eight(s,
      0x4c263a81e69035e0, 0xcb00c391bb52283c, 0xa32e531b8b65d088, 0x4ef90da297486471,
      0xd8acdea946ef1938, 0x3f349ce33f76faa8, 0x1d4f0bc7c7bbdcf9, 0x3159b4cd4be0518a)
    ensures Accumulate512(mixing, acc, input, s) == LANES22
  {
    LanesAre(mixing, acc, input, s, LANES2,
      LANES23,
      LANES22);
  }

  lemma OwnStripe2(mixing: Mixing, acc: Acc, input: Bytes, s: Bytes)
    requires Mixes(mixing) && acc == LANES22
    requires Eight(input, 0, 0, 0, 0, 0, 0, 0, 0)
    requires Eight(s,
      0xcb00c391bb52283c, 0xa32e531b8b65d088, 0x4ef90da297486471, 0xd8acdea946ef1938,
      0x3f349ce33f76faa8, 0x1d4f0bc7c7bbdcf9, 0x3159b4cd4be0518a, 0x647378d9c97e9fc8)
    ensures Accumulate512(mixing, acc, input, s) == LANES24
  {
    LanesAre(mixing, acc, input, s, LANES2,
      LANES25,
      LANES24);
  }

  lemma OwnStripe3(mixing: Mixing, acc: Acc, input: Bytes, s: Bytes)
    requires Mixes(mixing) && acc == LANES24
    requires Eight(input, 0, 0, 0, 0, 0, 0, 0, 0)
    requires Eight(s,
      0xa32e531b8b65d088, 0x4ef90da297486471, 0xd8acdea946ef1938, 0x3f349ce33f76faa8,
      0x1d4f0bc7c7bbdcf9, 0x3159b4cd4be0518a, 0x647378d9c97e9fc8, 0xc3ebd33483acc5ea)
    ensures Accumulate512(mixing, acc, input, s) == LANES26
  {
    LanesAre(mixing, acc, input, s, LANES2,
      LANES27,
      LANES26);
  }

  lemma OwnStripe4(mixing: Mixing, acc: Acc, input: Bytes, s: Bytes)
    requires Mixes(mixing) && acc == LANES26
    requires Eight(input, 0, 0, 0, 0, 0, 0, 0, 0)
    requires Eight(s,
      0x4ef90da297486471, 0xd8acdea946ef1938, 0x3f349ce33f76faa8, 0x1d4f0bc7c7bbdcf9,
      0x3159b4cd4be0518a, 0x647378d9c97e9fc8, 0xc3ebd33483acc5ea, 0xeb6313faffa081c5)
    ensures Accumulate512(mixing, acc, input, s) == LANES28
  {
    LanesAre(mixing, acc, input, s, LANES2,
      LANES29,
      LANES28);
  }

  lemma OwnStripe5(mixing: Mixing, acc: Acc, input: Bytes, s: Bytes)
    requires Mixes(mixing) && acc == LANES28
    requires Eight(input, 0, 0, 0, 0, 0, 0, 0, 0)
    requires Eight(s,
      0xd8acdea946ef1938, 0x3f349ce33f76faa8, 0x1d4f0bc7c7bbdcf9, 0x3159b4cd4be0518a,
      0x647378d9c97e9fc8, 0xc3ebd33483acc5ea, 0xeb6313faffa081c5, 0x49daf0b751dd0d17)
    ensures Accumulate512(mixing, acc, input, s) == LANES30
  {
    LanesAre(mixing, acc, input, s, LANES2,
      LANES31,
      LANES30);
  }

  lemma OwnStripe6(mixing: Mixing, acc: Acc, input: Bytes, s: Bytes)
    requires Mixes(mixing) && acc == LANES30
    requires Eight(input, 0, 0, 0, 0, 0, 0, 0, 0)
    requires Eight(s,
      0x3f349ce33f76faa8, 0x1d4f0bc7c7bbdcf9, 0x3159b4cd4be0518a, 0x647378d9c97e9fc8,
      0xc3ebd33483acc5ea, 0xeb6313faffa081c5, 0x49daf0b751dd0d17, 0x9e68d429265516d3)
    ensures Accumulate512(mixing, acc, input, s) == LANES32
  {
    LanesAre(mixing, acc, input, s, LANES2,
      LANES33,
      LANES32);
  }

  lemma OwnStripe7(mixing: Mixing, acc: Acc, input: Bytes, s: Bytes)
    requires Mixes(mixing) && acc == LANES32
    requires Eight(input, 0, 0, 0, 0, 0, 0, 0, 0)
    requires Eight(s,
      0x1d4f0bc7c7bbdcf9, 0x3159b4cd4be0518a, 0x647378d9c97e9fc8, 0xc3ebd33483acc5ea,
      0xeb6313faffa081c5, 0x49daf0b751dd0d17, 0x9e68d429265516d3, 0xfca1477d58be162b)
    ensures Accumulate512(mixing, acc, input, s) == LANES34
  {
    LanesAre(mixing, acc, input, s, LANES2,
      LANES35,
      LANES34);
  }

  lemma OwnStripe8(mixing: Mixing, acc: Acc, input: Bytes, s: Bytes)
    requires Mixes(mixing) && acc == LANES34
    requires Eight(input, 0, 0, 0, 0, 0, 0, 0, 0)
    requires Eight(s,
      0x3159b4cd4be0518a, 0x647378d9c97e9fc8, 0xc3ebd33483acc5ea, 0xeb6313faffa081c5,
      0x49daf0b751dd0d17, 0x9e68d429265516d3, 0xfca1477d58be162b, 0xce31d07ad1b8f88f)
    ensures Accumulate512(mixing, acc, input, s) == LANES36
  {
    LanesAre(mixing, acc, input, s, LANES2,
      LANES37,
      LANES36);
  }

  lemma OwnStripe9(mixing: Mixing, acc: Acc, input: Bytes, s: Bytes)
    requires Mixes(mixing) && acc == LANES36
    requires Eight(input, 0, 0, 0, 0, 0, 0, 0, 0)
    requires Eight(s,
      0x647378d9c97e9fc8, 0xc3ebd33483acc5ea, 0xeb6313faffa081c5, 0x49daf0b751dd0d17,
      0x9e68d429265516d3, 0xfca1477d58be162b, 0xce31d07ad1b8f88f, 0x280416958f3acb45)
    ensures Accumulate512(mixing, acc, input, s) == LANES38
  {
    LanesAre(mixing, acc, input, s, LANES2,
      LANES39,
      LANES38);
  }

  lemma OwnAfter1(mixing: Mixing, scrambling: Scrambling, fold: Folding, data: Bytes, k: Bytes, own: Bytes)
    requires IsSecret(k) && own == k[56..] && Mixes(mixing) && Scrambles(scrambling) && AllZero(data) && |data| >= 64
    ensures Reaches(mixing, scrambling, fold, own, data, 1, LANES22, 1)
  {
    OwnPart0(k, own);
    AfterStart(mixing, scrambling, fold, own, data);
    ZeroPart(data, 0);
    OwnStripe1(mixing, LANES0, data[0..64], Slice(own, 0, 64));
    AfterNext(mixing, scrambling, fold, own, data, 0, data[0..64], LANES0, 0, LANES22);
  }

  lemma OwnAfter2(mixing: Mixing, scrambling: Scrambling, fold: Folding, data: Bytes, k: Bytes, own: Bytes)
    requires IsSecret(k) && own == k[56..] && Mixes(mixing) && Scrambles(scrambling) && AllZero(data) && |data| >= 128
    ensures Reaches(mixing, scrambling, fold, own, data, 2, LANES24, 2)
  {
    OwnPart8(k, own);
    OwnAfter1(mixing, scrambling, fold, data, k, own);
    ZeroPart(data, 64);
    OwnStripe2(mixing, LANES22, data[64..128], Slice(own, 8, 64));
    AfterNext(mixing, scrambling, fold, own, data, 1, data[64..128], LANES22, 1, LANES24);
  }

  lemma OwnAfter3(mixing: Mixing, scrambling: Scrambling, fold: Folding, data: Bytes, k: Bytes, own: Bytes)
    requires IsSecret(k) && own == k[56..] && Mixes(mixing) && Scrambles(scrambling) && AllZero(data) && |data| >= 192
    ensures Reaches(mixing, scrambling, fold, own, data, 3, LANES26, 3)
  {
    OwnPart16(k, own);
    OwnAfter2(mixing, scrambling, fold, data, k, own);
    ZeroPart(data, 128);
    OwnStripe3(mixing, LANES24, data[128..192], Slice(own, 16, 64));
    AfterNext(mixing, scrambling, fold, own, data, 2, data[128..192], LANES24, 2, LANES26);
  }

  lemma OwnAfter4(mixing: Mixing, scrambling: Scrambling, fold: Folding, data: Bytes, k: Bytes, own: Bytes)
    requires IsSecret(k) && own == k[56..] && Mixes(mixing) && Scrambles(scrambling) && AllZero(data) && |data| >= 256
    ensures Reaches(mixing, scrambling, fold, own, data, 4, LANES28, 4)
  {
    OwnPart24(k, own);
    OwnAfter3(mixing, scrambling, fold, data, k, own);
    ZeroPart(data, 192);
    OwnStripe4(mixing, LANES26, data[192..256], Slice(own, 24, 64));
    AfterNext(mixing, scrambling, fold, own, data, 3, data[192..256], LANES26, 3, LANES28);
  }

  lemma OwnAfter5(mixing: Mixing, scrambling: Scrambling, fold: Folding, data: Bytes, k: Bytes, own: Bytes)
    requires IsSecret(k) && own == k[56..] && Mixes(mixing) && Scrambles(scrambling) && AllZero(data) && |data| >= 320
    ensures Reaches(mixing, scrambling, fold, own, data, 5, LANES30, 5)
  {
    OwnPart32(k, own);
    OwnAfter4(mixing, scrambling, fold, data, k, own);
    ZeroPart(data, 256);
    OwnStripe5(mixing, LANES28, data[256..320], Slice(own, 32, 64));
    AfterNext(mixing, scrambling, fold, own, data, 4, data[256..320], LANES28, 4, LANES30);
  }

  lemma OwnAfter6(mixing: Mixing, scrambling: Scrambling, fold: Folding, data: Bytes, k: Bytes, own: Bytes)
    requires IsSecret(k) && own == k[56..] && Mixes(mixing) && Scrambles(scrambling) && AllZero(data) && |data| >= 384
    ensures Reaches(mixing, scrambling, fold, own, data, 6, LANES32, 6)
  {
    OwnPart40(k, own);
    OwnAfter5(mixing, scrambling, fold, data, k, own);
    ZeroPart(data, 320);
    OwnStripe6(mixing, LANES30, data[320..384], Slice(own, 40, 64));
    AfterNext(mixing, scrambling, fold, own, data, 5, data[320..384], LANES30, 5, LANES32);
  }

  lemma OwnAfter7(mixing: Mixing, scrambling: Scrambling, fold: Folding, data: Bytes, k: Bytes, own: Bytes)
    requires IsSecret(k) && own == k[56..] && Mixes(mixing) && Scrambles(scrambling) && AllZero(data) && |data| >= 448
    ensures Reaches(mixing, scrambling, fold, own, data, 7, LANES34, 7)
  {
    OwnPart48(k, own);
    OwnAfter6(mixing, scrambling, fold, data, k, own);
    ZeroPart(data, 384);
    OwnStripe7(mixing, LANES32, data[384..448], Slice(own, 48, 64));
    AfterNext(mixing, scrambling, fold, own, data, 6, data[384..448], LANES32, 6, LANES34);
  }

  lemma OwnAfter8(mixing: Mixing, scrambling: Scrambling, fold: Folding, data: Bytes, k: Bytes, own: Bytes)
    requires IsSecret(k) && own == k[56..] && Mixes(mixing) && Scrambles(scrambling) && AllZero(data) && |data| >= 512
    ensures Reaches(mixing, scrambling, fold, own, data, 8, LANES36, 8)
  {
    OwnPart56(k, own);
    OwnAfter7(mixing, scrambling, fold, data, k, own);
    ZeroPart(data, 448);
    OwnStripe8(mixing, LANES34, data[448..512], Slice(own, 56, 64));
    AfterNext(mixing, scrambling, fold, own, data, 7, data[448..512], LANES34, 7, LANES36);
  }

  lemma OwnAfter9(mixing: Mixing, scrambling: Scrambling, fold: Folding, data: Bytes, k: Bytes, own: Bytes)
    requires IsSecret(k) && own == k[56..] && Mixes(mixing) && Scrambles(scrambling) && AllZero(data) && |data| >= 576
    ensures Reaches(mixing, scrambling, fold, own, data, 9, LANES40, 0)
  {
    OwnPart64(k, own);
    OwnAfter8(mixing, scrambling, fold, data, k, own);
    ZeroPart(data, 512);
    OwnStripe9(mixing, LANES36, data[512..576], Slice(own, 64, 64));
    AfterNext(mixing, scrambling, fold, own, data, 8, data[512..576], LANES36, 8, LANES38);
    OwnPart72(k, own);
    ScrambleOwn(scrambling, LANES38, Slice(own, 72, 64));
  }

  lemma OwnPart72(k: Bytes, own: Bytes)
    requires IsSecret(k) && own == k[56..]
    ensures |own| == 136 && Eight(Slice(own, 72, 64),
      0xc3ebd33483acc5ea, 0xeb6313faffa081c5, 0x49daf0b751dd0d17, 0x9e68d429265516d3,
      0xfca1477d58be162b, 0xce31d07ad1b8f88f, 0x280416958f3acb45, 0x7e404bbbcafbd7af)
  {
    Secret128(k);
    Secret144(k);
    Secret160(k);
    Secret176(k);
    OwnReads(k, own, 72);
    OwnReads(k, own, 80);
    OwnReads(k, own, 88);
    OwnReads(k, own, 96);
    OwnReads(k, own, 104);
    OwnReads(k, own, 112);
    OwnReads(k, own, 120);
    OwnReads(k, own, 128);
    SliceEight(own, 72,
      0xc3ebd33483acc5ea, 0xeb6313faffa081c5, 0x49daf0b751dd0d17, 0x9e68d429265516d3,
      0xfca1477d58be162b, 0xce31d07ad1b8f88f, 0x280416958f3acb45, 0x7e404bbbcafbd7af);
  }

  lemma ScrambleOwn(scrambling: Scrambling, acc: Acc, s: Bytes)
    requires Scrambles(scrambling) && acc == LANES38
    requires Eight(s,
      0xc3ebd33483acc5ea, 0xeb6313faffa081c5, 0x49daf0b751dd0d17, 0x9e68d429265516d3,
      0xfca1477d58be162b, 0xce31d07ad1b8f88f, 0x280416958f3acb45, 0x7e404bbbcafbd7af)
    ensures ScrambleAcc(scrambling, acc, s) == LANES40
  {
  }

  /** What the merge reads of it. */
  ghost predicate OwnMerges(own: Bytes) {
    && |own| == 136
    && ReadLE64(own, 11) == 0x65d088cb00c391bb
    && ReadLE64(own, 19) == 0x486471a32e531b8b
    && ReadLE64(own, 27) == 0xef19384ef90da297
    && ReadLE64(own, 35) == 0x76faa8d8acdea946
    && ReadLE64(own, 43) == 0xbbdcf93f349ce33f
    && ReadLE64(own, 51) == 0xe0518a1d4f0bc7c7
    && ReadLE64(own, 59) == 0x7e9fc83159b4cd4b
    && ReadLE64(own, 67) == 0xacc5ea647378d9c9
  }

  lemma OwnMergeReads(k: Bytes, own: Bytes)
    requires IsSecret(k) && own == k[56..]
    ensures OwnMerges(own)
  {
    Secret67(k);
    Secret83(k);
    Secret99(k);
    Secret115(k);
    OwnReads(k, own, 11);
    OwnReads(k, own, 19);
    OwnReads(k, own, 27);
    OwnReads(k, own, 35);
    OwnReads(k, own, 43);
    OwnReads(k, own, 51);
    OwnReads(k, own, 59);
    OwnReads(k, own, 67);
  }

  lemma OwnLast(mixing: Mixing, acc: Acc, input: Bytes, s: Bytes)
    requires Mixes(mixing) && acc == LANES40
    requires Eight(input, 0, 0, 0, 0, 0, 0, 0, 0)
    requires Eight(s,
      0xea647378d9c97e9f, 0xc5c3ebd33483acc5, 0x17eb6313faffa081, 0xd349daf0b751dd0d,
      0x2b9e68d429265516, 0x8ffca1477d58be16, 0x45ce31d07ad1b8f8, 0xaf280416958f3acb)
    ensures Accumulate512(mixing, acc, input, s) == LANES41
  {
    LanesAre(mixing, acc, input, s, LANES2,
      LANES9,
      LANES41);
  }

  lemma OwnMergePair0(fold: Folding, acc: Acc, k: Bytes)
    requires OwnMerges(k) && Foldings(fold) && acc[0] == 17993626453385254186 && acc[1] == 10942776625161239486
    ensures Mix2Accs(fold, acc[0], acc[1], k, 11) == 0xeea4d9d5fad663da
  {
  }

  lemma OwnMergePair1(fold: Folding, acc: Acc, k: Bytes)
    requires OwnMerges(k) && Foldings(fold) && acc[2] == 16519170785814998691 && acc[3] == 15070514885778495109
    ensures Mix2Accs(fold, acc[2], acc[3], k, 27) == 0x41deacf29ac3a56a
  {
  }

  lemma OwnMergePair2(fold: Folding, acc: Acc, k: Bytes)
    requires OwnMerges(k) && Foldings(fold) && acc[4] == 11310767747623759775 && acc[5] == 17605974949747559925
    ensures Mix2Accs(fold, acc[4], acc[5], k, 43) == 0x1bfd8e8e9ab2a847
  {
  }

  lemma OwnMergePair3(fold: Folding, acc: Acc, k: Bytes)
    requires OwnMerges(k) && Foldings(fold) && acc[6] == 16290955478312753615 && acc[7] == 17471896090100944678
    ensures Mix2Accs(fold, acc[6], acc[7], k, 59) == 0x4d7735fe52095a0d
  {
  }

  lemma OwnMergeSum(fold: Folding, acc: Acc, k: Bytes)
    requires |k| >= SECRET_SIZE_MIN
    requires Mix2Accs(fold, acc[0], acc[1], k, 11) == 0xeea4d9d5fad663da
    requires Mix2Accs(fold, acc[2], acc[3], k, 27) == 0x41deacf29ac3a56a
    requires Mix2Accs(fold, acc[4], acc[5], k, 43) == 0x1bfd8e8e9ab2a847
    requires Mix2Accs(fold, acc[6], acc[7], k, 59) == 0x4d7735fe52095a0d
    ensures MergeAccs(fold, acc, k, 577) == 0xdb51fc69d62fa9f5
  {
  }

  lemma OwnMerge(fold: Folding, acc: Acc, k: Bytes)
    requires OwnMerges(k) && Foldings(fold) && acc == LANES41
    ensures MergeAccs(fold, acc, k, 577) == 0xdb51fc69d62fa9f5
  {
    OwnMergePair0(fold, acc, k);
    OwnMergePair1(fold, acc, k);
    OwnMergePair2(fold, acc, k);
    OwnMergePair3(fold, acc, k);
    OwnMergeSum(fold, acc, k);
  }

  lemma OwnLong(mixing: Mixing, scrambling: Scrambling, fold: Folding, data: Bytes, k: Bytes, own: Bytes, s: Bytes, seed: bv64)
    requires IsSecret(k) && own == k[56..] && Mixes(mixing) && Scrambles(scrambling) && Foldings(fold) && AllZero(data) && |data| == 577 && |s| >= SECRET_SIZE_MIN
    ensures |own| == 136 && Hash(Xxh3With(mixing, scrambling, fold), data, s, seed, own) == 0xdb51fc69d62fa9f5
  {
    OwnPart65(k, own);
    OwnAfter9(mixing, scrambling, fold, data, k, own);
    ZeroPart(data, 513);
    assert data[513..] == data[513..577];
    OwnLast(mixing, LANES40, data[513..], Slice(own, 65, 64));
    LastStripe(mixing, scrambling, fold, own, data, 9, LANES40, 0, data[513..], LANES41);
    OwnMergeReads(k, own);
    OwnMerge(fold, LANES41, own);
    HashIs(mixing, scrambling, fold, own, data, s, seed, LANES41);
  }
}
