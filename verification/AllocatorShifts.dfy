/** What a caller can check before a reallocation: the shifts the system's answer can lead to, and what each of them does. */
module AllocatorShifts {
  import opened Memory
  import opened AllocatorBlock
  import opened Allocator
  import opened SystemAllocator

  // ----- multiples

  lemma MultiplesApart(x: nat, y: nat, d: nat)
    requires d > 0 && Aligned(x, d) && Aligned(y, d) && x < y
    ensures x + d <= y && Aligned(y - d, d)
  {
    assert x == (x / d) * d && y == (y / d) * d;
    assert y - x == (y / d - x / d) * d;
    TimesAtLeast(y / d - x / d, d);
    AddMultiple(y - d, d);
  }

  lemma AlignDownGreatest(x: nat, d: nat)
    requires d > 0
    ensures Aligned(AlignDown(x, d), d) && x < AlignDown(x, d) + d && AlignDown(x, d) <= x
  {
    DivideProduct(x / d, d);
    assert x == (x / d) * d + x % d;
  }

  // ----- the shifts there can be

  /** An address the system may return for size bytes at alignment al, if all its addresses are multiples of g. */
  predicate Offered(at: nat, g: nat, size: nat, al: nat)
    requires g > 0
  {
    at != NULL && Aligned(at, g) && at + HEADER + size + al <= ADDRESS_SPACE
  }

  /** Shifts from HEADER on, below HEADER + al, in steps of d. */
  predicate Possible(t: nat, al: nat, d: nat)
    requires d > 0
  {
    HEADER <= t < HEADER + al && Aligned(t, d)
  }

  /** The largest of them. */
  function Top(al: nat, d: nat): nat
    requires al > 0 && d > 0
  {
    AlignDown(HEADER + al - 1, d)
  }

  lemma TopPossible(al: nat, d: nat)
    requires 0 < d <= al
    ensures Possible(Top(al, d), al, d)
    ensures forall t: nat | Possible(t, al, d) && t != Top(al, d) :: t + d <= Top(al, d)
    ensures Top(al, d) >= HEADER + d ==> Possible(Top(al, d) - d, al, d)
  {
    var top := Top(al, d);
    AlignDownGreatest(HEADER + al - 1, d);
    forall t: nat | Possible(t, al, d) && t != top ensures t + d <= top {
      if t < top {
        MultiplesApart(t, top, d);
      } else {
        MultiplesApart(top, t, d);
      }
    }
    if top >= HEADER + d {
      AddMultiple(top - d, d);
    }
  }

  /** The smaller of two powers of two divides both, and is a whole number of words if both are. */
  lemma StepDivides(al: nat, g: nat, d: nat)
    requires IsPot(al) && IsPot(g) && al >= 8 && g >= 8 && d == Min(al, g)
    ensures Aligned(al, d) && Aligned(g, d) && Aligned(d, 8)
    ensures forall x: nat | Aligned(x, g) :: Aligned(x, d)
    ensures forall x: nat | Aligned(x, al) :: Aligned(x, d)
    ensures forall x: nat | Aligned(x, d) :: Aligned(x, 8)
  {
    var j: nat, k: nat :| g == Pow2(j) && al == Pow2(k);
    Pow2Eight();
    Pow2Monotone(j, k);
    Pow2Monotone(3, j);
    Pow2Monotone(3, k);
    forall x: nat | Aligned(x, g) ensures Aligned(x, d) {
      AlignedPart(x, Min(j, k), j);
    }
    forall x: nat | Aligned(x, al) ensures Aligned(x, d) {
      AlignedPart(x, Min(j, k), k);
    }
    forall x: nat | Aligned(x, d) ensures Aligned(x, 8) {
      AlignedPart(x, 3, Min(j, k));
    }
    DivideProduct(1, al);
    DivideProduct(1, g);
    DivideProduct(1, d);
  }

  /** Every shift is a possible one. */
  lemma ShiftPossible(at: nat, al: nat, g: nat, d: nat, t: nat)
    requires IsPot(al) && IsPot(g) && al >= 8 && g >= 8 && d == Min(al, g)
    requires Aligned(at, g) && Hdr2Mem(at, al) == at + t
    ensures Possible(t, al, d)
  {
    StepDivides(al, g, d);
    AlignUpLeast(at + HEADER, al);
    AlignedSum(at, t, d);
  }

  /** And every possible one is the shift of some address. */
  lemma ShiftReached(al: nat, g: nat, d: nat, t: nat) returns (at: nat)
    requires IsPot(al) && IsPot(g) && al >= 8 && g >= 8 && d == Min(al, g) && Possible(t, al, d)
    ensures at != NULL && Aligned(at, g) && Hdr2Mem(at, al) == at + t && (at == g || at <= 3 * al - HEADER)
  {
    StepDivides(al, g, d);
    if al <= g {
      at := g;
      AlignedSum(at, t, al);
      DivideProduct(1, g);
      AlignUpIs(at + HEADER, al, at + t);
    } else {
      at := ThreeLess(al, g, t);
      AlignUpIs(at + HEADER, al, at + t);
    }
  }

  lemma ThreeLess(al: nat, g: nat, t: nat) returns (at: nat)
    requires 8 <= g < al && Aligned(al, 8) && Aligned(al, g) && HEADER <= t < HEADER + al && Aligned(t, g)
    ensures at + t == 3 * al && Aligned(at + t, al) && Aligned(at, g) && 0 < at <= 3 * al - HEADER
  {
    at := 3 * al - t;
    DivideProduct(3, al);
    AlignedSum(al, al, g);
    AlignedSum(al, 2 * al, g);
    AlignedSum(t, at, g);
  }

  // ----- the answers of the system and the shifts they lead to

  /** The address space has room for the addresses that matter. */
  predicate Roomy(size: nat, al: nat, g: nat) {
    HEADER + size + 4 * al <= ADDRESS_SPACE && HEADER + size + al + g <= ADDRESS_SPACE
  }

  lemma AtLeastWordPot(alignment: nat)
    requires IsPot(alignment) && alignment < ADDRESS_SPACE
    ensures IsPot(AtLeastWord(alignment))
  {
    PotPower(alignment);
  }

  /** A block at an address the system may return. */
  lemma AnswerGives(at: nat, size: nat, alignment: nat, g: nat, b: Block)
    requires IsPot(alignment) && alignment < ADDRESS_SPACE && IsPot(g) && g >= 8
    requires Offered(at, g, size, AtLeastWord(alignment)) && b == NewBlock(at, size, alignment)
    ensures Sane(b) && b.base == at && b.size == size && Extent(b) == HEADER + size + AtLeastWord(alignment)
    ensures Possible(b.shift, AtLeastWord(alignment), Min(AtLeastWord(alignment), g))
  {
    var al := AtLeastWord(alignment);
    AtLeastWordPot(alignment);
    StepDivides(al, g, Min(al, g));
    NewBlockSane(at, size, alignment);
    ShiftPossible(at, al, g, Min(al, g), b.shift);
  }

  /** An address that leads to a possible shift. */
  lemma AnswerFor(t: nat, size: nat, alignment: nat, g: nat) returns (at: nat)
    requires IsPot(alignment) && alignment < ADDRESS_SPACE && IsPot(g) && g >= 8 && Roomy(size, AtLeastWord(alignment), g)
    requires Possible(t, AtLeastWord(alignment), Min(AtLeastWord(alignment), g))
    ensures Offered(at, g, size, AtLeastWord(alignment)) && NewBlock(at, size, alignment).shift == t
  {
    var al := AtLeastWord(alignment);
    AtLeastWordPot(alignment);
    at := ShiftReached(al, g, Min(al, g), t);
  }

  // ----- writing inside the block, whatever the answer

  /** Whichever address the system returns, the reallocation of a is contained. */
  ghost predicate SafeEverywhere(a: Block, size: nat, alignment: nat, g: nat)
    requires alignment > 0 && g > 0
  {
    forall at: nat | Offered(at, g, size, AtLeastWord(alignment)) ::
      Contained(NewBlock(at, size, alignment), Before(true, a.shift, a.size))
  }

  /** The old size fits behind the shift that leaves the least room, the old shift excepted: there nothing is moved. */
  predicate WorstFits(a: Block, size: nat, al: nat, d: nat)
    requires al > 0 && d > 0
  {
    var worst := if a.shift == Top(al, d) then Top(al, d) - d else Top(al, d);
    worst < HEADER || worst + a.size <= HEADER + size + al
  }

  lemma WorstFitsAll(a: Block, size: nat, al: nat, d: nat, t: nat)
    requires 0 < d <= al && WorstFits(a, size, al, d) && Possible(t, al, d)
    ensures t == a.shift || t + a.size <= HEADER + size + al
  {
    TopPossible(al, d);
  }

  lemma WorstIs(a: Block, size: nat, al: nat, d: nat) returns (t: nat)
    requires 0 < d <= al && !WorstFits(a, size, al, d)
    ensures Possible(t, al, d) && t != a.shift && t + a.size > HEADER + size + al
  {
    TopPossible(al, d);
    t := if a.shift == Top(al, d) then Top(al, d) - d else Top(al, d);
    if a.shift == Top(al, d) {
      AlignDownGreatest(HEADER + al - 1, d);
    }
  }

  /**
   * Before the call: the reallocation writes inside its block at every address a system that aligns to g may return,
   * exactly when the worst shift fits.
   */
  lemma SafeExact(a: Block, size: nat, alignment: nat, g: nat)
    requires IsPot(alignment) && alignment < ADDRESS_SPACE && IsPot(g) && g >= 8 && Roomy(size, AtLeastWord(alignment), g)
    ensures SafeEverywhere(a, size, alignment, g)
      <==> WorstFits(a, size, AtLeastWord(alignment), Min(AtLeastWord(alignment), g))
  {
    var al, d := AtLeastWord(alignment), Min(AtLeastWord(alignment), g);
    if WorstFits(a, size, al, d) {
      forall at: nat | Offered(at, g, size, al) ensures Contained(NewBlock(at, size, alignment), Before(true, a.shift, a.size)) {
        var b := NewBlock(at, size, alignment);
        AnswerGives(at, size, alignment, g, b);
        WorstFitsAll(a, size, al, d, b.shift);
      }
    } else {
      var t := WorstIs(a, size, al, d);
      var at := AnswerFor(t, size, alignment, g);
      AnswerGives(at, size, alignment, g, NewBlock(at, size, alignment));
    }
  }

  // ----- keeping the payload, whatever the answer

  /** Whichever address the system returns and whatever the payload is, the link leaves the common bytes alone. */
  ghost predicate SurvivesEverywhere(a: Block, size: nat, alignment: nat, g: nat)
    requires alignment > 0 && g > 0
  {
    forall at: nat, o: Bytes | Offered(at, g, size, AtLeastWord(alignment)) && |o| == Min(a.size, size) ::
      UnderLink(o, a.shift, NewBlock(at, size, alignment).shift, LE(at, 8)) == o
  }

  /** No shift is above the old one, or the link of the next one is behind the payload. */
  predicate NextClear(a: Block, n: nat, al: nat, d: nat)
    requires al > 0 && d > 0
  {
    a.shift >= Top(al, d) || a.shift + n + 8 <= AlignUp(a.shift + 1, d)
  }

  lemma NextClearAll(a: Block, n: nat, al: nat, d: nat, t: nat)
    requires 0 < d <= al && NextClear(a, n, al, d) && Possible(t, al, d)
    ensures Clear(a.shift, t, n)
  {
    TopPossible(al, d);
    AlignUpLeast(a.shift + 1, d);
  }

  lemma NextIs(a: Block, n: nat, al: nat, d: nat) returns (t: nat)
    requires 0 < d <= al && !NextClear(a, n, al, d) && a.shift >= HEADER
    ensures Possible(t, al, d) && !Clear(a.shift, t, n)
  {
    TopPossible(al, d);
    AlignUpLeast(a.shift + 1, d);
    t := AlignUp(a.shift + 1, d);
  }

  lemma LinkDestroys(a: Block, size: nat, alignment: nat, g: nat, t: nat, at: nat)
    requires Sane(a) && alignment > 0 && g > 0 && t % 8 == 0 && !Clear(a.shift, t, Min(a.size, size))
    requires Offered(at, g, size, AtLeastWord(alignment)) && NewBlock(at, size, alignment).shift == t
    ensures !SurvivesEverywhere(a, size, alignment, g)
  {
    SurvivesIffClear(a.shift, t, Min(a.size, size), LE(at, 8));
  }

  /**
   * Before the call: the bytes both sizes reach come through at every address a system that aligns to g may return,
   * exactly when the next shift is clear.
   */
  lemma SurvivesExact(a: Block, size: nat, alignment: nat, g: nat)
    requires Sane(a) && IsPot(alignment) && alignment < ADDRESS_SPACE && IsPot(g) && g >= 8
    requires Roomy(size, AtLeastWord(alignment), g)
    ensures SurvivesEverywhere(a, size, alignment, g)
      <==> NextClear(a, Min(a.size, size), AtLeastWord(alignment), Min(AtLeastWord(alignment), g))
  {
    var al, d, n := AtLeastWord(alignment), Min(AtLeastWord(alignment), g), Min(a.size, size);
    if NextClear(a, n, al, d) {
      forall at: nat, o: Bytes | Offered(at, g, size, al) && |o| == n
        ensures UnderLink(o, a.shift, NewBlock(at, size, alignment).shift, LE(at, 8)) == o
      {
        var b := NewBlock(at, size, alignment);
        AnswerGives(at, size, alignment, g, b);
        NextClearAll(a, n, al, d, b.shift);
        ClearKeeps(o, a.shift, b.shift, LE(at, 8));
      }
    } else {
      var t := NextIs(a, n, al, d);
      var at := AnswerFor(t, size, alignment, g);
      AnswerGives(at, size, alignment, g, NewBlock(at, size, alignment));
      LinkDestroys(a, size, alignment, g, t, at);
    }
  }

  // ----- the two tests in plain numbers

  lemma EightDivides(al: nat)
    requires IsPot(al) && al >= 8
    ensures al % 8 == 0
  {
    Pow2Eight();
    StepDivides(al, 8, 8);
  }

  lemma EightTop(al: nat)
    requires al > 0 && al % 8 == 0
    ensures Top(al, 8) == al + 16
  {
  }

  lemma EightShift(a: Block, al: nat)
    requires Sane(a) && al % 8 == 0 && Pow2(a.power) <= al
    ensures a.shift % 8 == 0 && a.shift <= al + 16 && (al == 8 ==> a.shift == HEADER)
  {
  }

  lemma EightFacts(a: Block, alignment: nat, al: nat)
    requires Sane(a) && IsPot(alignment) && alignment < ADDRESS_SPACE && al == AtLeastWord(alignment) && a.power <= Ctz(al)
    ensures Min(al, 8) == 8 && al % 8 == 0 && a.shift % 8 == 0 && a.shift <= al + 16 && (al == 8 ==> a.shift == HEADER)
  {
    PotPower(alignment);
    EightDivides(al);
    Pow2Monotone(a.power, Ctz(al));
    EightShift(a, al);
  }

  lemma EightFits(a: Block, size: nat, al: nat)
    requires al >= 8 && al % 8 == 0 && a.shift % 8 == 0 && (al == 8 ==> a.shift == HEADER)
    ensures WorstFits(a, size, al, 8) <==> al == 8 || a.size <= size + (if a.shift == al + 16 then 16 else 8)
  {
    EightTop(al);
  }

  lemma EightClear(a: Block, n: nat, al: nat)
    requires al % 8 == 0 && a.shift % 8 == 0 && al > 0 && a.shift <= al + 16
    ensures NextClear(a, n, al, 8) <==> n == 0 || a.shift == al + 16
  {
    EightTop(al);
  }

  /** A system that aligns to 8: the block may lose as much as the padding it has over. */
  lemma EightSafe(a: Block, size: nat, alignment: nat)
    requires Sane(a) && IsPot(alignment) && alignment < ADDRESS_SPACE && a.power <= Ctz(AtLeastWord(alignment))
    requires HEADER + size + 4 * AtLeastWord(alignment) <= ADDRESS_SPACE
    ensures SafeEverywhere(a, size, alignment, 8) <==>
      AtLeastWord(alignment) == 8 || a.size <= size + (if a.shift == AtLeastWord(alignment) + 16 then 16 else 8)
  {
    Pow2Eight();
    EightFacts(a, alignment, AtLeastWord(alignment));
    SafeExact(a, size, alignment, 8);
    EightFits(a, size, AtLeastWord(alignment));
  }

  /** And it keeps its payload exactly when there is none, or its shift is the largest already. */
  lemma EightSurvives(a: Block, size: nat, alignment: nat)
    requires Sane(a) && IsPot(alignment) && alignment < ADDRESS_SPACE && a.power <= Ctz(AtLeastWord(alignment))
    requires HEADER + size + 4 * AtLeastWord(alignment) <= ADDRESS_SPACE
    ensures SurvivesEverywhere(a, size, alignment, 8) <==>
      Min(a.size, size) == 0 || a.shift == AtLeastWord(alignment) + 16
  {
    Pow2Eight();
    EightFacts(a, alignment, AtLeastWord(alignment));
    SurvivesExact(a, size, alignment, 8);
    EightClear(a, Min(a.size, size), AtLeastWord(alignment));
  }

  /** A system that aligns at least as far as is asked leaves one shift, and a block that has it is always kept whole. */
  lemma CoarseKeeps(a: Block, size: nat, alignment: nat, g: nat)
    requires Sane(a) && IsPot(alignment) && alignment < ADDRESS_SPACE && IsPot(g) && g >= AtLeastWord(alignment)
    requires Roomy(size, AtLeastWord(alignment), g) && a.shift == AlignUp(HEADER, AtLeastWord(alignment))
    ensures SafeEverywhere(a, size, alignment, g) && SurvivesEverywhere(a, size, alignment, g)
  {
    var al := AtLeastWord(alignment);
    OneShift(al);
    SafeExact(a, size, alignment, g);
    SurvivesExact(a, size, alignment, g);
  }

  lemma OneShift(al: nat)
    requires al > 0
    ensures Top(al, al) == AlignUp(HEADER, al) && Top(al, al) - al < HEADER
  {
    AlignDownGreatest(HEADER + al - 1, al);
  }
}
