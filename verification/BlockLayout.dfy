/** vsc_align and the two-pass vsc_block_xalloc. */
module BlockLayout {
  import opened Machine
  import opened Memory

  /** VscBlockAllocInfo. Alignment 0 stands for the allocator's own; out says that there is a cell for the address. */
  datatype Info = Info(elementSize: nat, count: nat, alignment: nat, out: bool)

  function SizeOf(b: Info): nat {
    b.elementSize * b.count
  }

  function AlignOf(b: Info, default: nat): (a: nat)
    requires default > 0
    ensures a > 0
  {
    if b.alignment == 0 then default else b.alignment
  }

  // ----- pass 1: the size to ask for

  /** A first block that ends on a multiple of twice its alignment is given one alignment more. */
  function Bump(size: nat, a: nat): nat
    requires a > 0
  {
    if Aligned(size, a) && Aligned(size, 2 * a) then size + a else size
  }

  /** The size computed for the first n blocks, empty ones included, starting from offset 0. */
  function Total(infos: seq<Info>, default: nat, n: nat): nat
    requires default > 0 && 1 <= n <= |infos|
    decreases n
  {
    if n == 1 then Bump(SizeOf(infos[0]), AlignOf(infos[0], default))
    else AlignUp(Total(infos, default, n - 1), AlignOf(infos[n - 1], default)) + SizeOf(infos[n - 1])
  }

  // ----- pass 2: where the blocks go

  /** The end of the first n blocks when every block that is not empty goes to the least aligned address after the last. */
  function End(base: nat, infos: seq<Info>, default: nat, n: nat): nat
    requires default > 0 && 1 <= n <= |infos|
    decreases n, 0
  {
    if n == 1 then base + SizeOf(infos[0])
    else if SizeOf(infos[n - 1]) == 0 then End(base, infos, default, n - 1)
    else Place(base, infos, default, n - 1) + SizeOf(infos[n - 1])
  }

  /** Where block i goes. */
  function Place(base: nat, infos: seq<Info>, default: nat, i: nat): nat
    requires default > 0 && i < |infos|
    decreases i, 1
  {
    if i == 0 then base else AlignUp(End(base, infos, default, i), AlignOf(infos[i], default))
  }

  /** Blocks but the first get no address when they are empty. */
  function Pointer(base: nat, infos: seq<Info>, default: nat, i: nat): nat
    requires default > 0 && i < |infos|
  {
    if i > 0 && SizeOf(infos[i]) == 0 then 0 else Place(base, infos, default, i)
  }

  // ----- the two passes agree

  lemma PlaceBounds(base: nat, infos: seq<Info>, default: nat, i: nat)
    requires default > 0 && 1 <= i < |infos|
    ensures Aligned(Place(base, infos, default, i), AlignOf(infos[i], default))
    ensures End(base, infos, default, i) <= Place(base, infos, default, i)
    ensures Place(base, infos, default, i) < End(base, infos, default, i) + AlignOf(infos[i], default)
  {
    AlignUpLeast(End(base, infos, default, i), AlignOf(infos[i], default));
  }

  lemma {:induction false} EndGrows(base: nat, infos: seq<Info>, default: nat, i: nat, n: nat)
    requires default > 0 && 1 <= i <= n <= |infos|
    ensures base <= End(base, infos, default, i) <= End(base, infos, default, n)
    decreases n
  {
    if n > i {
      EndGrows(base, infos, default, i, n - 1);
      PlaceBounds(base, infos, default, n - 1);
    } else if i > 1 {
      EndGrows(base, infos, default, i - 1, i - 1);
      PlaceBounds(base, infos, default, i - 1);
    }
  }

  /** Starting from 0 the second pass never needs more than the first computed. */
  lemma {:induction false} PassesMonotone(infos: seq<Info>, default: nat, n: nat)
    requires default > 0 && 1 <= n <= |infos|
    ensures End(0, infos, default, n) <= Total(infos, default, n)
    decreases n
  {
    if n > 1 {
      PassesMonotone(infos, default, n - 1);
      var a := AlignOf(infos[n - 1], default);
      AlignUpMonotone(End(0, infos, default, n - 1), Total(infos, default, n - 1), a);
      AlignUpLeast(Total(infos, default, n - 1), a);
    }
  }

  /** The base is a multiple of every alignment that matters. */
  predicate BaseAligned(base: nat, infos: seq<Info>, default: nat)
    requires default > 0
  {
    forall i | 1 <= i < |infos| && SizeOf(infos[i]) != 0 :: Aligned(base, AlignOf(infos[i], default))
  }

  lemma {:induction false} EndShifts(base: nat, infos: seq<Info>, default: nat, n: nat)
    requires default > 0 && 1 <= n <= |infos| && BaseAligned(base, infos, default)
    ensures End(base, infos, default, n) == base + End(0, infos, default, n)
    decreases n
  {
    if n > 1 {
      EndShifts(base, infos, default, n - 1);
      if SizeOf(infos[n - 1]) != 0 {
        AlignUpShift(base, End(0, infos, default, n - 1), AlignOf(infos[n - 1], default));
      }
    }
  }

  /** The layout fits what pass 1 asked for. */
  predicate Fits(base: nat, infos: seq<Info>, default: nat)
    requires default > 0 && |infos| >= 1
  {
    End(base, infos, default, |infos|) <= base + Total(infos, default, |infos|)
  }

  /** From a base that every alignment divides the layout always fits. */
  lemma AlignedBaseFits(base: nat, infos: seq<Info>, default: nat)
    requires default > 0 && |infos| >= 1 && BaseAligned(base, infos, default)
    ensures Fits(base, infos, default)
  {
    PassesMonotone(infos, default, |infos|);
    EndShifts(base, infos, default, |infos|);
  }

  // ----- what decides it before the base is known

  /** c is a multiple of every alignment that matters. */
  lemma {:induction false} EndShiftsBy(c: nat, base: nat, infos: seq<Info>, default: nat, n: nat)
    requires default > 0 && 1 <= n <= |infos| && BaseAligned(c, infos, default)
    ensures End(c + base, infos, default, n) == c + End(base, infos, default, n)
    decreases n
  {
    if n > 1 {
      EndShiftsBy(c, base, infos, default, n - 1);
      if SizeOf(infos[n - 1]) != 0 {
        AlignUpShift(c, End(base, infos, default, n - 1), AlignOf(infos[n - 1], default));
      }
    }
  }

  /** Whether the layout fits depends only on the base modulo a common multiple of the alignments. */
  lemma {:induction false} FitsModulo(c: nat, k: nat, r: nat, infos: seq<Info>, default: nat)
    requires default > 0 && |infos| >= 1 && BaseAligned(c, infos, default)
    ensures Fits(k * c + r, infos, default) <==> Fits(r, infos, default)
    decreases k
  {
    if k > 0 {
      FitsModulo(c, k - 1, r, infos, default);
      EndShiftsBy(c, (k - 1) * c + r, infos, default, |infos|);
      assert k * c + r == c + ((k - 1) * c + r);
    } else {
      assert 0 * c + r == r;
    }
  }

  /**
   * Over the blocks, a base alignment g the allocator guarantees and a common multiple c of all alignments: the call
   * fits at every base it can get exactly when it fits at the multiples of g below c, which are finitely many.
   */
  lemma FitsEverywhere(g: nat, c: nat, infos: seq<Info>, default: nat)
    requires default > 0 && |infos| >= 1 && g > 0 && c > 0 && Aligned(c, g) && BaseAligned(c, infos, default)
    ensures (forall base: nat | Aligned(base, g) :: Fits(base, infos, default))
      <==> (forall r: nat | r < c && Aligned(r, g) :: Fits(r, infos, default))
  {
    if forall r: nat | r < c && Aligned(r, g) :: Fits(r, infos, default) {
      forall base: nat | Aligned(base, g) ensures Fits(base, infos, default) {
        RestAligned(base / c, base % c, base, c, g);
        FitsAt(base / c, base % c, base, c, infos, default);
      }
    }
  }

  lemma FitsAt(k: nat, r: nat, base: nat, c: nat, infos: seq<Info>, default: nat)
    requires default > 0 && |infos| >= 1 && c > 0 && BaseAligned(c, infos, default)
    requires k == base / c && r == base % c && Fits(r, infos, default)
    ensures Fits(base, infos, default)
  {
    FitsModulo(c, k, r, infos, default);
    Division(k, r, base, c);
  }

  lemma Division(k: nat, r: nat, base: nat, c: nat)
    requires c > 0 && k == base / c && r == base % c
    ensures base == k * c + r && r < c
  {
  }

  lemma RestAligned(k: nat, r: nat, base: nat, c: nat, g: nat)
    requires g > 0 && c > 0 && Aligned(c, g) && Aligned(base, g) && k == base / c && r == base % c
    ensures Aligned(r, g) && r < c
  {
    Division(k, r, base, c);
    TimesAligned(k, c, g);
    AlignedSum(k * c, r, g);
  }

  lemma TimesAligned(k: nat, c: nat, g: nat)
    requires g > 0 && Aligned(c, g)
    ensures Aligned(k * c, g)
  {
    MultipleOf(c, g);
    MultipleOfPart(k, g, c / g);
    assert g * (c / g) == c;
  }

  /** From others it may not: 24 bytes, then any s at 4096, from a base 16 short of a multiple of 4096. */
  lemma UnalignedBaseMisses(s: nat, k: nat)
    requires s > 0
    ensures var infos := [Info(1, 24, 8, false), Info(1, s, 4096, false)];
      !Fits(4096 * k + 4080, infos, 16) && (4096 * k + 4080) % 8 == 0
  {
    var infos, base := [Info(1, 24, 8, false), Info(1, s, 4096, false)], 4096 * k + 4080;
    Starts(base, infos, 16);
    TotalNext(infos, 16, 1, 24, 4096, 4096);
    EndNext(base, infos, 16, 1, base + 24, 4096, 4096 * k + 8192);
  }

  // ----- examples

  /** One step of each pass; x is the aligned place of block n. */
  lemma TotalNext(infos: seq<Info>, default: nat, n: nat, t: nat, a: nat, x: nat)
    requires default > 0 && 1 <= n < |infos| && t == Total(infos, default, n) && a == AlignOf(infos[n], default)
    requires Aligned(x, a) && t <= x < t + a
    ensures Total(infos, default, n + 1) == x + SizeOf(infos[n])
  {
    AlignUpIs(t, a, x);
  }

  lemma EndNext(base: nat, infos: seq<Info>, default: nat, n: nat, e: nat, a: nat, x: nat)
    requires default > 0 && 1 <= n < |infos| && e == End(base, infos, default, n) && a == AlignOf(infos[n], default)
    requires SizeOf(infos[n]) > 0 && Aligned(x, a) && e <= x < e + a
    ensures End(base, infos, default, n + 1) == x + SizeOf(infos[n]) && Pointer(base, infos, default, n) == x
  {
    AlignUpIs(e, a, x);
  }

  lemma Starts(base: nat, infos: seq<Info>, default: nat)
    requires default > 0 && |infos| >= 1
    ensures Total(infos, default, 1) == Bump(SizeOf(infos[0]), AlignOf(infos[0], default))
    ensures End(base, infos, default, 1) == base + SizeOf(infos[0]) && Pointer(base, infos, default, 0) == base
  {
  }

  /** 64 bytes at 8, then 1024 at 16: the second block goes to the next multiple of 16, whatever the base is. */
  lemma NextClosest(base: nat, x: nat)
    requires x % 16 == 0 && base + 64 <= x < base + 80
    ensures var infos := [Info(1, 64, 8, false), Info(1, 1024, 16, false)];
      Total(infos, 16, 2) == 1104 && Fits(base, infos, 16) && Pointers(base, infos, 16) == [base, x]
  {
    var infos := [Info(1, 64, 8, false), Info(1, 1024, 16, false)];
    Starts(base, infos, 16);
    TotalNext(infos, 16, 1, 72, 16, 80);
    EndNext(base, infos, 16, 1, base + 64, 16, x);
  }

  /** 16 bytes at 8, 12 at 4, 8 at 16: the 8 bytes Bump adds are what a base that is 8 past a multiple of 16 needs. */
  lemma BumpNeeded(base: nat)
    requires base % 16 == 8
    ensures var infos := [Info(1, 16, 8, false), Info(1, 12, 4, false), Info(1, 8, 16, false)];
      Total(infos, 16, 3) == 56 && End(base, infos, 16, 3) == base + 48 && Fits(base, infos, 16)
  {
    var infos := [Info(1, 16, 8, false), Info(1, 12, 4, false), Info(1, 8, 16, false)];
    Starts(base, infos, 16);
    TotalNext(infos, 16, 1, 24, 4, 24);
    TotalNext(infos, 16, 2, 36, 16, 48);
    EndNext(base, infos, 16, 1, base + 16, 4, base + 16);
    EndNext(base, infos, 16, 2, base + 28, 16, base + 40);
  }

  /** Counts, an empty block, and the allocator's alignment where none is given. */
  lemma CountsAndDefaults(base: nat)
    requires base % 16 == 0
    ensures var infos := [Info(4, 10, 0, false), Info(0, 4, 32, false), Info(12, 3, 0, false)];
      Total(infos, 16, 3) == 100 && Pointers(base, infos, 16) == [base, 0, base + 48]
  {
    var infos := [Info(4, 10, 0, false), Info(0, 4, 32, false), Info(12, 3, 0, false)];
    Starts(base, infos, 16);
    TotalNext(infos, 16, 1, 40, 32, 64);
    TotalNext(infos, 16, 2, 64, 16, 64);
    assert End(base, infos, 16, 2) == base + 40;
    EndNext(base, infos, 16, 2, base + 40, 16, base + 48);
  }

  // ----- what a layout is

  /** Addresses for all blocks from base: the first at base, the others, unless empty, aligned and after the ones before. */
  predicate Layout(q: seq<nat>, base: nat, infos: seq<Info>, default: nat, n: nat)
    requires default > 0
    decreases n
  {
    && 1 <= n <= |infos| && |q| == |infos|
    && (n == 1 ==> q[0] == base)
    && (n > 1 ==> Layout(q, base, infos, default, n - 1))
    && (n > 1 && SizeOf(infos[n - 1]) != 0 ==>
      Aligned(q[n - 1], AlignOf(infos[n - 1], default)) && q[n - 1] >= EndOf(q, infos, n - 1))
  }

  /** Where the last of the first n blocks that is not empty ends. */
  function EndOf(q: seq<nat>, infos: seq<Info>, n: nat): nat
    requires 1 <= n <= |infos| == |q|
    decreases n
  {
    if n == 1 then q[0] + SizeOf(infos[0])
    else if SizeOf(infos[n - 1]) == 0 then EndOf(q, infos, n - 1)
    else q[n - 1] + SizeOf(infos[n - 1])
  }

  /** No in-order layout from the base ends earlier than the one the code computes. */
  lemma {:induction false} EndLeast(q: seq<nat>, base: nat, infos: seq<Info>, default: nat, n: nat)
    requires default > 0 && Layout(q, base, infos, default, n)
    ensures End(base, infos, default, n) <= EndOf(q, infos, n)
    decreases n
  {
    if n > 1 {
      EndLeast(q, base, infos, default, n - 1);
      if SizeOf(infos[n - 1]) != 0 {
        AlignUpLeast(End(base, infos, default, n - 1), AlignOf(infos[n - 1], default));
      }
    }
  }

  function Pointers(base: nat, infos: seq<Info>, default: nat): (q: seq<nat>)
    requires default > 0
    ensures |q| == |infos|
  {
    seq(|infos|, i requires 0 <= i < |infos| => Pointer(base, infos, default, i))
  }

  lemma {:induction false} PointersLayout(base: nat, infos: seq<Info>, default: nat, n: nat)
    requires default > 0 && 1 <= n <= |infos|
    ensures Layout(Pointers(base, infos, default), base, infos, default, n)
    ensures EndOf(Pointers(base, infos, default), infos, n) == End(base, infos, default, n)
    decreases n
  {
    if n > 1 {
      PointersLayout(base, infos, default, n - 1);
      PlaceBounds(base, infos, default, n - 1);
    }
  }

  /** The code succeeds exactly when some in-order layout from the base fits. */
  lemma FitsIffLayout(base: nat, infos: seq<Info>, default: nat)
    requires default > 0 && |infos| >= 1
    ensures Fits(base, infos, default) <==>
      exists q :: Layout(q, base, infos, default, |infos|) && EndOf(q, infos, |infos|) <= base + Total(infos, default, |infos|)
  {
    PointersLayout(base, infos, default, |infos|);
    forall q | Layout(q, base, infos, default, |infos|)
      ensures End(base, infos, default, |infos|) <= EndOf(q, infos, |infos|)
    {
      EndLeast(q, base, infos, default, |infos|);
    }
  }

  // ----- what pass 1 asks for

  /** Offsets for all blocks, empty ones too: the first at 0, the others aligned and after the one before. first is its size. */
  predicate Offsets(q: seq<nat>, first: nat, infos: seq<Info>, default: nat, n: nat)
    requires default > 0
    decreases n
  {
    && 1 <= n <= |infos| && |q| == |infos| && q[0] == 0
    && (n > 1 ==> Offsets(q, first, infos, default, n - 1))
    && (n > 1 ==> Aligned(q[n - 1], AlignOf(infos[n - 1], default)) && q[n - 1] >= OffsetEnd(q, first, infos, n - 1))
  }

  /** Where the last of the first n blocks ends. */
  function OffsetEnd(q: seq<nat>, first: nat, infos: seq<Info>, n: nat): nat
    requires 1 <= n <= |infos| == |q|
  {
    q[n - 1] + if n == 1 then first else SizeOf(infos[n - 1])
  }

  lemma UpAtMost(x: nat, y: nat, a: nat)
    requires a > 0 && x <= y && Aligned(y, a)
    ensures AlignUp(x, a) <= y
  {
    AlignUpLeast(x, a);
  }

  /** The size is no larger than any such layout from offset 0 needs, the first block taken with the size Bump gives it. */
  lemma {:induction false} TotalLeast(q: seq<nat>, infos: seq<Info>, default: nat, n: nat)
    requires default > 0 && |infos| >= 1
    requires Offsets(q, Bump(SizeOf(infos[0]), AlignOf(infos[0], default)), infos, default, n)
    ensures Total(infos, default, n) <= OffsetEnd(q, Bump(SizeOf(infos[0]), AlignOf(infos[0], default)), infos, n)
    decreases n
  {
    if n > 1 {
      TotalLeast(q, infos, default, n - 1);
      UpAtMost(Total(infos, default, n - 1), q[n - 1], AlignOf(infos[n - 1], default));
    }
  }

  /** The offsets pass 1 goes through. */
  function OffsetAt(infos: seq<Info>, default: nat, i: nat): nat
    requires default > 0 && i < |infos|
  {
    if i == 0 then 0 else AlignUp(Total(infos, default, i), AlignOf(infos[i], default))
  }

  /** And one needs exactly that. */
  lemma {:induction false} TotalReached(q: seq<nat>, infos: seq<Info>, default: nat, n: nat)
    requires default > 0 && 1 <= n <= |infos| == |q| && forall i | 0 <= i < |infos| :: q[i] == OffsetAt(infos, default, i)
    ensures Offsets(q, Bump(SizeOf(infos[0]), AlignOf(infos[0], default)), infos, default, n)
    ensures Total(infos, default, n) == OffsetEnd(q, Bump(SizeOf(infos[0]), AlignOf(infos[0], default)), infos, n)
    decreases n
  {
    if n > 1 {
      TotalReached(q, infos, default, n - 1);
      AlignUpLeast(Total(infos, default, n - 1), AlignOf(infos[n - 1], default));
    }
  }

  /** The size pass 1 computes is the least any layout of all blocks from offset 0 needs. */
  lemma TotalExact(infos: seq<Info>, default: nat, m: nat)
    requires default > 0 && |infos| >= 1
    ensures var first := Bump(SizeOf(infos[0]), AlignOf(infos[0], default));
      Total(infos, default, |infos|) <= m
      <==> exists q :: Offsets(q, first, infos, default, |infos|) && OffsetEnd(q, first, infos, |infos|) <= m
  {
    var first := Bump(SizeOf(infos[0]), AlignOf(infos[0], default));
    var q := seq(|infos|, i requires 0 <= i < |infos| => OffsetAt(infos, default, i));
    TotalReached(q, infos, default, |infos|);
    forall r | Offsets(r, first, infos, default, |infos|)
      ensures Total(infos, default, |infos|) <= OffsetEnd(r, first, infos, |infos|)
    {
      TotalLeast(r, infos, default, |infos|);
    }
  }

  /** Two blocks that are not empty are in order and apart. */
  lemma {:induction false} BlocksApart(base: nat, infos: seq<Info>, default: nat, i: nat, j: nat)
    requires default > 0 && i < j < |infos| && SizeOf(infos[i]) != 0 && SizeOf(infos[j]) != 0
    ensures Place(base, infos, default, i) + SizeOf(infos[i]) <= Place(base, infos, default, j)
  {
    EndGrows(base, infos, default, i + 1, j);
    PlaceBounds(base, infos, default, j);
  }

  lemma BlockInside(base: nat, infos: seq<Info>, default: nat, i: nat)
    requires default > 0 && i < |infos| && SizeOf(infos[i]) != 0 && Fits(base, infos, default)
    ensures base <= Place(base, infos, default, i)
    ensures Place(base, infos, default, i) + SizeOf(infos[i]) <= base + Total(infos, default, |infos|)
  {
    EndGrows(base, infos, default, i + 1, |infos|);
    if i > 0 {
      EndGrows(base, infos, default, i, i);
      PlaceBounds(base, infos, default, i);
    }
  }

  /** The size asked for is never a multiple of twice the first alignment after the first block. */
  lemma BumpBreaksAlignment(size: nat, a: nat)
    requires a > 0
    ensures !Aligned(Bump(size, a), 2 * a)
  {
    if Aligned(size, 2 * a) {
      HalfMultiple(size, a);
      AlignedSum(size, a, 2 * a);
    }
  }

  /** A first block that does not end on a multiple of its alignment is left as it is. */
  lemma BumpUnaligned(size: nat, a: nat)
    requires a > 0 && size % a != 0
    ensures Bump(size, a) == size
  {
  }

  /**
   * One that does is given the least size, from its own on, that ends on a multiple of its alignment but not of twice
   * the alignment.
   */
  lemma BumpLeast(size: nat, a: nat)
    requires a > 0 && size % a == 0
    ensures size <= Bump(size, a) && Bump(size, a) % a == 0 && Bump(size, a) % (2 * a) != 0
    ensures forall m: nat | m >= size && m % a == 0 && m % (2 * a) != 0 :: m >= Bump(size, a)
  {
    BumpBreaksAlignment(size, a);
    AddMultiple(size, a);
    forall m: nat | m >= size && m % a == 0 && m % (2 * a) != 0 ensures m >= Bump(size, a) {
      if m > size {
        MultiplesGap(size, m, a);
      }
    }
  }

  lemma MultiplesGap(x: nat, y: nat, a: nat)
    requires a > 0 && x % a == 0 && y % a == 0 && x < y
    ensures x + a <= y
  {
    MultipleOf(x, a);
    MultipleOf(y, a);
    assert y - x == (y / a - x / a) * a;
    TimesAtLeast(y / a - x / a, a);
  }

  lemma HalfMultiple(size: nat, a: nat)
    requires a > 0 && Aligned(size, 2 * a)
    ensures Aligned(size, a)
  {
    MultipleOf(size, 2 * a);
    MultipleOfPart(size / (2 * a), a, 2);
    assert size / (2 * a) * (a * 2) == size;
  }

  // ----- the code

  /** vsc_align: the first aligned address with size bytes behind it inside the space, or nothing and no change. */
  method Align(alignment: nat, size: nat, ptr: nat, space: nat) returns (r: Option<nat>, newPtr: nat, newSpace: nat)
    requires IsPot(alignment)
    ensures r.Some? <==> AlignUp(ptr, alignment) + size <= ptr + space
    ensures r.Some? ==> r.value == newPtr == AlignUp(ptr, alignment) && newPtr + newSpace == ptr + space
    ensures r.None? ==> newPtr == ptr && newSpace == space
  {
    r, newPtr, newSpace := None, ptr, space;
    AlignUpLeast(ptr, alignment);
    if size <= space {
      var p2 := AlignUp(ptr, alignment);
      var d := p2 - ptr;
      if d <= space - size {
        r, newPtr, newSpace := Some(p2), p2, space - d;
      }
    }
  }

  /** No sum of the computation reaches the end of the address space; the code does not check. */
  predicate NoOverflow(infos: seq<Info>, default: nat)
    requires default > 0
  {
    && (|infos| >= 1 ==> Total(infos, default, 1) <= SIZE_MAX)
    && forall n | 1 <= n < |infos| ::
      Total(infos, default, n) + AlignOf(infos[n], default) + SizeOf(infos[n]) <= SIZE_MAX
  }

  /** The alignments are powers of two, as the mask in vsc_align needs. */
  ghost predicate PotAlignments(infos: seq<Info>, default: nat) {
    IsPot(default) && forall i | 0 <= i < |infos| && infos[i].alignment != 0 :: IsPot(infos[i].alignment)
  }

  /** The padding before the next block, read off the space vsc_align leaves. */
  method Padding(reqsize: nat, size: nat, alignment: nat) returns (pad: nat)
    requires alignment > 0 && IsPot(alignment) && reqsize + alignment + size <= SIZE_MAX
    ensures reqsize + pad == AlignUp(reqsize, alignment) && reqsize + pad + size <= SIZE_MAX
  {
    AlignUpLeast(reqsize, alignment);
    var r, p, space := Align(alignment, size, reqsize, SIZE_MAX);
    pad := SIZE_MAX - space;
  }

  method ComputeSize(infos: seq<Info>, default: nat) returns (reqsize: nat)
    requires default > 0 && |infos| >= 1 && NoOverflow(infos, default) && PotAlignments(infos, default)
    ensures reqsize == Total(infos, default, |infos|) <= SIZE_MAX
  {
    reqsize := Bump(SizeOf(infos[0]), AlignOf(infos[0], default));
    for i := 1 to |infos|
      invariant reqsize == Total(infos, default, i) <= SIZE_MAX
    {
      var size := SizeOf(infos[i]);
      var pad := Padding(reqsize, size, AlignOf(infos[i], default));
      reqsize := reqsize + (size + pad);
    }
  }

  /** The last placed block before block n: it ends where the first n blocks end. */
  predicate LastPlaced(base: nat, infos: seq<Info>, default: nat, n: nat, last: nat)
    requires default > 0
  {
    && last < n <= |infos|
    && End(base, infos, default, n) == Place(base, infos, default, last) + SizeOf(infos[last])
  }

  /** The pointers given out so far are those of the layout. */
  predicate Placed(q: seq<nat>, base: nat, infos: seq<Info>, default: nat, n: nat)
    requires default > 0
  {
    n <= |infos| == |q| && forall i | 0 <= i < n :: q[i] == Pointer(base, infos, default, i)
  }

  lemma MissingRoom(base: nat, infos: seq<Info>, default: nat, i: nat)
    requires default > 0 && 1 <= i < |infos| && SizeOf(infos[i]) != 0
    requires Place(base, infos, default, i) + SizeOf(infos[i]) > base + Total(infos, default, |infos|)
    ensures !Fits(base, infos, default)
  {
    EndGrows(base, infos, default, i + 1, |infos|);
  }

  lemma PlacedNext(q: seq<nat>, base: nat, infos: seq<Info>, default: nat, n: nat, x: nat)
    requires default > 0 && n < |infos| && Placed(q, base, infos, default, n) && x == Pointer(base, infos, default, n)
    ensures Placed(q[n := x], base, infos, default, n + 1)
  {
  }

  lemma PlacedAll(q: seq<nat>, base: nat, infos: seq<Info>, default: nat)
    requires default > 0 && Placed(q, base, infos, default, |infos|)
    ensures q == Pointers(base, infos, default)
  {
  }

  lemma PlacedFirst(q: seq<nat>, base: nat, infos: seq<Info>, default: nat)
    requires default > 0 && |q| == |infos| > 0
    ensures Placed(q[0 := base], base, infos, default, 1) && LastPlaced(base, infos, default, 1, 0)
  {
  }

  lemma PlacedAt(q: seq<nat>, base: nat, infos: seq<Info>, default: nat, n: nat, last: nat)
    requires default > 0 && Placed(q, base, infos, default, n) && LastPlaced(base, infos, default, n, last)
    requires last == 0 || SizeOf(infos[last]) != 0
    ensures q[0] == base && q[last] + SizeOf(infos[last]) == End(base, infos, default, n) && base <= End(base, infos, default, n)
  {
    EndGrows(base, infos, default, 1, n);
  }

  lemma EmptyNext(base: nat, infos: seq<Info>, default: nat, n: nat, last: nat)
    requires default > 0 && n < |infos| && LastPlaced(base, infos, default, n, last) && SizeOf(infos[n]) == 0
    ensures LastPlaced(base, infos, default, n + 1, last) && Pointer(base, infos, default, n) == 0
    ensures End(base, infos, default, n + 1) == End(base, infos, default, n)
  {
  }

  lemma FullNext(base: nat, infos: seq<Info>, default: nat, n: nat, x: nat)
    requires default > 0 && 1 <= n < |infos| && SizeOf(infos[n]) != 0
    requires x == AlignUp(End(base, infos, default, n), AlignOf(infos[n], default))
    ensures LastPlaced(base, infos, default, n + 1, n) && Pointer(base, infos, default, n) == x == Place(base, infos, default, n)
    ensures End(base, infos, default, n + 1) == x + SizeOf(infos[n])
  {
  }

  /** The cells of the blocks, one each, after the first n blocks that have one were given their addresses. */
  function Handed(cells: seq<nat>, base: nat, infos: seq<Info>, default: nat, n: nat): (r: seq<nat>)
    requires default > 0 && |cells| == |infos|
    ensures |r| == |infos|
  {
    seq(|infos|, k requires 0 <= k < |infos| =>
      if k < n && infos[k].out then Pointer(base, infos, default, k) else cells[k])
  }

  lemma HandedNext(cells: seq<nat>, base: nat, infos: seq<Info>, default: nat, n: nat, x: nat)
    requires default > 0 && |cells| == |infos| && n < |infos| && x == Pointer(base, infos, default, n)
    ensures Handed(cells, base, infos, default, n + 1)
      == if infos[n].out then Handed(cells, base, infos, default, n)[n := x] else Handed(cells, base, infos, default, n)
  {
  }

  /** The address of a block, for its cell if it has one. */
  method HandOut(outs: array<nat>, infos: seq<Info>, i: nat, x: nat, ghost base: nat, ghost default: nat, ghost cells: seq<nat>)
    requires default > 0 && outs.Length == |infos| == |cells| && i < |infos| && x == Pointer(base, infos, default, i)
    requires outs[..] == Handed(cells, base, infos, default, i)
    modifies outs
    ensures outs[..] == Handed(cells, base, infos, default, i + 1)
  {
    HandedNext(cells, base, infos, default, i, x);
    if infos[i].out {
      outs[i] := x;
    }
  }

  /**
   * Pass 2: gives every block its address, or finds that one does not fit. Done is the number of blocks that got
   * theirs: all, or those before the first that ends too late.
   */
  method PlaceBlocks(base: nat, reqsize: nat, infos: seq<Info>, ptr: array<nat>, outs: array<nat>, default: nat)
      returns (ok: bool, ghost done: nat)
    requires default > 0 && PotAlignments(infos, default) && ptr != outs && outs.Length == |infos|
    requires ptr.Length == |infos| >= 1 && SizeOf(infos[0]) <= reqsize == Total(infos, default, |infos|)
    modifies ptr, outs
    ensures ok <==> Fits(base, infos, default)
    ensures ok ==> ptr[..] == Pointers(base, infos, default)
    ensures StopsAt(base, infos, default, done) && (ok <==> done == |infos|)
    ensures outs[..] == Handed(old(outs[..]), base, infos, default, done)
  {
    ghost var cells := outs[..];
    PlacedFirst(ptr[..], base, infos, default);
    ptr[0] := base;
    assert outs[..] == Handed(cells, base, infos, default, 0);
    HandOut(outs, infos, 0, base, base, default, cells);
    var last := 0;
    for i := 1 to |infos|
      invariant Placed(ptr[..], base, infos, default, i)
      invariant LastPlaced(base, infos, default, i, last) && End(base, infos, default, i) <= base + reqsize
      invariant last == 0 || SizeOf(infos[last]) != 0
      invariant outs[..] == Handed(cells, base, infos, default, i)
    {
      ghost var q := ptr[..];
      var size := SizeOf(infos[i]);
      if size == 0 {
        EmptyNext(base, infos, default, i, last);
        PlacedNext(q, base, infos, default, i, 0);
        HandOut(outs, infos, i, 0, base, default, cells);
        ptr[i] := 0;
      } else {
        PlacedAt(q, base, infos, default, i, last);
        var p := ptr[last] + SizeOf(infos[last]);
        var r, newPtr, space := Align(AlignOf(infos[i], default), size, p, reqsize - (p - ptr[0]));
        FullNext(base, infos, default, i, AlignUp(p, AlignOf(infos[i], default)));
        if r.None? {
          MissingRoom(base, infos, default, i);
          return false, i;
        }
        PlacedNext(q, base, infos, default, i, r.value);
        ptr[i] := r.value;
        HandOut(outs, infos, i, r.value, base, default, cells);
        last := i;
      }
    }
    PlacedAll(ptr[..], base, infos, default);
    ok, done := true, |infos|;
  }

  /** The first n blocks end in the requested size, and one more, if there is one, does not. */
  predicate StopsAt(base: nat, infos: seq<Info>, default: nat, n: nat)
    requires default > 0
  {
    && 1 <= n <= |infos| && End(base, infos, default, n) <= base + Total(infos, default, |infos|)
    && (n < |infos| ==> base + Total(infos, default, |infos|) < End(base, infos, default, n + 1))
  }

  lemma FirstFits(infos: seq<Info>, default: nat)
    requires default > 0 && |infos| >= 1
    ensures SizeOf(infos[0]) <= Total(infos, default, |infos|)
  {
    PassesMonotone(infos, default, |infos|);
    EndGrows(0, infos, default, 1, |infos|);
  }

  /**
   * vsc_block_xalloc. The allocator's answer to the request is grant; what it returns when it has none is failure.
   * Asked is the size and the alignment it asks for. The cells of blocks that were placed before one did not fit keep
   * addresses in the block that is freed again.
   */
  method BlockAlloc(infos: seq<Info>, ptr: array<nat>, outs: array<nat>, default: nat, grant: Option<nat>, failure: Status)
      returns (status: Status, asked: Option<(nat, nat)>, ghost done: nat)
    requires default > 0 && PotAlignments(infos, default) && failure != Ok
    requires ptr != outs && ptr.Length == |infos| == outs.Length
    requires |infos| >= 1 ==> NoOverflow(infos, default)
    modifies ptr, outs
    ensures |infos| == 0 ==> status == EINVAL && asked == None
    ensures |infos| > 0 ==> asked == Some((Total(infos, default, |infos|), infos[0].alignment))
    ensures |infos| > 0 && grant.None? ==> status == failure && ptr[..] == old(ptr[..]) && outs[..] == old(outs[..])
    ensures |infos| > 0 && grant.Some? ==>
      status == (if Fits(grant.value, infos, default) then Ok else ENOSPC)
    ensures |infos| > 0 && grant.Some? && status == Ok ==> ptr[..] == Pointers(grant.value, infos, default)
    ensures |infos| > 0 && grant.Some? && status != Ok ==> forall k :: 0 <= k < ptr.Length ==> ptr[k] == 0
    ensures |infos| > 0 && grant.Some? ==>
      StopsAt(grant.value, infos, default, done) && outs[..] == Handed(old(outs[..]), grant.value, infos, default, done)
  {
    if |infos| < 1 {
      return EINVAL, None, 0;
    }
    var reqsize := ComputeSize(infos, default);
    asked := Some((reqsize, infos[0].alignment));
    if grant.None? {
      return failure, asked, 0;
    }
    FirstFits(infos, default);
    var ok;
    ok, done := PlaceBlocks(grant.value, reqsize, infos, ptr, outs, default);
    if ok {
      return Ok, asked, done;
    }
    forall k | 0 <= k < ptr.Length {
      ptr[k] := 0;
    }
    status := ENOSPC;
  }
}
