/** vsc_uuid_format and vsc_uuid_parse. */
module Uuid {
  import opened Machine

  type UUID = u: seq<byte> | |u| == 16 witness seq(16, i => 0)

  const FORMAT_UPPER: bv32 := 1
  const FORMAT_MS: bv32 := 4
  const FORMAT_COMPACT: bv32 := 8

  // ----- digits

  const LOWER: string := "0123456789abcdef"
  const UPPER: string := "0123456789ABCDEF"

  function Alphabet(upper: bool): (a: string)
    ensures |a| == 16
  {
    if upper then UPPER else LOWER
  }

  predicate IsXDigit(c: char) {
    '0' <= c <= '9' || 'a' <= c <= 'f' || 'A' <= c <= 'F'
  }

  /** denibble */
  function Denibble(c: char): (x: nat)
    requires IsXDigit(c)
    ensures x < 16
  {
    if '0' <= c <= '9' then (c - '0') as int
    else if c >= 'a' then 10 + (c - 'a') as int
    else 10 + (c - 'A') as int
  }

  function ToLower(c: char): char {
    if 'A' <= c <= 'F' then c - 'A' + 'a' else c
  }

  /** The digit for x. */
  function Digit(x: nat, upper: bool): char
    requires x < 16
  {
    if x < 10 then '0' + x as char else if upper then 'A' + (x - 10) as char else 'a' + (x - 10) as char
  }

  lemma AlphabetDigits(x: nat, upper: bool)
    requires x < 16
    ensures Alphabet(upper)[x] == Digit(x, upper)
  {
  }

  /** Digits and denibble are each other's inverses, up to case. */
  lemma Digits(x: nat, upper: bool)
    requires x < 16
    ensures IsXDigit(Digit(x, upper)) && Denibble(Digit(x, upper)) == x
  {
  }

  lemma DigitsBack(c: char)
    requires IsXDigit(c)
    ensures Digit(Denibble(c), false) == ToLower(c)
  {
  }

  lemma NibblesSplit(hi: nat, lo: nat)
    requires hi < 16 && lo < 16
    ensures 16 * hi + lo < 256 && (16 * hi + lo) / 16 == hi && (16 * hi + lo) % 16 == lo
  {
  }

  // ----- the text of a UUID

  /** A dash goes before these bytes. */
  predicate DashBefore(i: nat, compact: bool) {
    !compact && (i == 4 || i == 6 || i == 8 || i == 10)
  }

  function Pair(b: byte, upper: bool): (r: string)
    ensures |r| == 2
  {
    [Digit(b / 16, upper), Digit(b % 16, upper)]
  }

  /** The text of the first n bytes. */
  function Body(u: UUID, upper: bool, compact: bool, n: nat): (r: string)
    requires n <= 16
    ensures |r| == Length(n, compact)
  {
    if n == 0 then ""
    else Body(u, upper, compact, n - 1) + (if DashBefore(n - 1, compact) then "-" else "") + Pair(u[n - 1], upper)
  }

  function Length(n: nat, compact: bool): nat {
    if n == 0 then 0 else Length(n - 1, compact) + (if DashBefore(n - 1, compact) then 3 else 2)
  }

  function Text(u: UUID, upper: bool, ms: bool, compact: bool): (r: string) {
    (if ms then "{" else "") + Body(u, upper, compact, 16) + (if ms then "}" else "")
  }

  /** The dashes in front of the first n bytes. */
  function Dashes(n: nat, compact: bool): nat {
    if compact || n <= 4 then 0 else if n <= 6 then 1 else if n <= 8 then 2 else if n <= 10 then 3 else 4
  }

  lemma {:induction false} LengthIs(n: nat, compact: bool)
    ensures Length(n, compact) == 2 * n + Dashes(n, compact)
  {
    if n > 0 {
      LengthIs(n - 1, compact);
    }
  }

  /** 32, 36, 34 or 38 characters. */
  lemma Lengths(u: UUID, upper: bool, ms: bool, compact: bool)
    ensures |Text(u, upper, ms, compact)| == (if compact then 32 else 36) + (if ms then 2 else 0)
  {
    LengthIs(16, compact);
  }

  /** No small letter stands for a digit when upper case is asked for, and no capital otherwise. */
  lemma {:induction false} BodyCase(u: UUID, upper: bool, compact: bool, n: nat)
    requires n <= 16
    ensures forall c | c in Body(u, upper, compact, n) :: if upper then !('a' <= c <= 'f') else !('A' <= c <= 'F')
    decreases n
  {
    if n > 0 {
      BodyCase(u, upper, compact, n - 1);
    }
  }

  lemma TextCase(u: UUID, upper: bool, ms: bool, compact: bool)
    ensures forall c | c in Text(u, upper, ms, compact) :: if upper then !('a' <= c <= 'f') else !('A' <= c <= 'F')
  {
    BodyCase(u, upper, compact, 16);
  }

  // ----- the grammar

  predicate DashAt(j: nat) {
    j == 8 || j == 13 || j == 18 || j == 23
  }

  /** The j-th character of a body may be c. */
  predicate Fits(c: char, j: nat, compact: bool) {
    if !compact && DashAt(j) then c == '-' else IsXDigit(c)
  }

  /** 32 hexadecimal digits, or 36 characters with dashes in their places. */
  predicate IsBody(b: string, compact: bool) {
    |b| == Length(16, compact) && forall j | 0 <= j < |b| :: Fits(b[j], j, compact)
  }

  predicate Braced(s: string) {
    |s| >= 2 && s[0] == '{' && s[|s| - 1] == '}'
  }

  function Unbraced(s: string): string
    requires |s| >= 2
  {
    s[1..|s| - 1]
  }

  /** A body with braces around it, or without. */
  predicate Grammar(s: string) {
    IsBody(s, true) || IsBody(s, false)
    || (Braced(s) && (IsBody(Unbraced(s), true) || IsBody(Unbraced(s), false)))
  }

  // ----- reading a body

  /** Where the digits of byte k are. */
  function At(k: nat, compact: bool): (j: nat)
    ensures j == 2 * k + Dashes(k + 1, compact)
  {
    LengthIs(k + 1, compact);
    Length(k + 1, compact) - 2
  }

  lemma AtIsDigits(k: nat, compact: bool)
    requires k < 16
    ensures At(k, compact) + 1 < Length(16, compact)
    ensures !compact ==> !DashAt(At(k, compact)) && !DashAt(At(k, compact) + 1)
    ensures Length(k + 1, compact) == At(k, compact) + 2
    ensures Length(k, compact) == if DashBefore(k, compact) then At(k, compact) - 1 else At(k, compact)
    ensures DashBefore(k, compact) <==> !compact && DashAt(Length(k, compact))
  {
    LengthIs(k, compact);
    LengthIs(k + 1, compact);
    LengthIs(16, compact);
  }

  function ByteAt(b: string, compact: bool, k: nat): byte
    requires IsBody(b, compact) && k < 16
  {
    AtIsDigits(k, compact);
    16 * Denibble(b[At(k, compact)]) + Denibble(b[At(k, compact) + 1])
  }

  /** The UUID a body spells. */
  function Decoded(b: string, compact: bool): UUID
    requires IsBody(b, compact)
  {
    seq(16, k requires 0 <= k < 16 => ByteAt(b, compact, k))
  }

  lemma {:induction false} BodyFits(u: UUID, upper: bool, compact: bool, n: nat)
    requires n <= 16
    ensures forall j | 0 <= j < Length(n, compact) :: Fits(Body(u, upper, compact, n)[j], j, compact)
    decreases n
  {
    if n > 0 {
      BodyFits(u, upper, compact, n - 1);
      AtIsDigits(n - 1, compact);
      Digits(u[n - 1] / 16, upper);
      Digits(u[n - 1] % 16, upper);
      var short, long := Body(u, upper, compact, n - 1), Body(u, upper, compact, n);
      forall j | 0 <= j < Length(n, compact) ensures Fits(long[j], j, compact) {
        if j < Length(n - 1, compact) {
          assert long[j] == short[j];
        }
      }
    }
  }

  lemma BodyNext(u: UUID, upper: bool, compact: bool, n: nat)
    requires n < 16
    ensures At(n, compact) + 2 == Length(n + 1, compact) && Length(n, compact) <= At(n, compact)
    ensures Body(u, upper, compact, n + 1)[At(n, compact)..] == Pair(u[n], upper)
    ensures forall j | 0 <= j < Length(n, compact) :: Body(u, upper, compact, n + 1)[j] == Body(u, upper, compact, n)[j]
  {
    AtIsDigits(n, compact);
  }

  lemma {:induction false} BodyDigits(u: UUID, upper: bool, compact: bool, n: nat, k: nat)
    requires k < n <= 16
    ensures At(k, compact) + 1 < Length(n, compact)
    ensures Body(u, upper, compact, n)[At(k, compact)] == Digit(u[k] / 16, upper)
    ensures Body(u, upper, compact, n)[At(k, compact) + 1] == Digit(u[k] % 16, upper)
    decreases n
  {
    BodyNext(u, upper, compact, n - 1);
    if k < n - 1 {
      BodyDigits(u, upper, compact, n - 1, k);
    } else {
      var pair := Body(u, upper, compact, n)[At(k, compact)..];
      assert pair[0] == Digit(u[k] / 16, upper) && pair[1] == Digit(u[k] % 16, upper);
    }
  }

  lemma BodyRoundTrip(u: UUID, upper: bool, compact: bool)
    ensures IsBody(Body(u, upper, compact, 16), compact)
    ensures Decoded(Body(u, upper, compact, 16), compact) == u
  {
    var b := Body(u, upper, compact, 16);
    BodyFits(u, upper, compact, 16);
    forall k | 0 <= k < 16 ensures ByteAt(b, compact, k) == u[k] {
      BodyDigits(u, upper, compact, 16, k);
      Digits(u[k] / 16, upper);
      Digits(u[k] % 16, upper);
    }
  }

  const SIXTEEN: string := "0123456789abcdef"
  const SIXTEEN_CAPITALS: string := "0123456789ABCDEF"

  /** Where the digits of the sixteen bytes are in the form with dashes. */
  const DASHED: seq<nat> := [0, 2, 4, 6, 9, 11, 14, 16, 19, 21, 24, 26, 28, 30, 32, 34]

  /** The digits of byte k, the high one first. */
  predicate ShowsByte(t: string, j: nat, x: byte, upper: bool) {
    && j + 1 < |t| && t[j] == (if upper then SIXTEEN_CAPITALS else SIXTEEN)[x / 16]
    && t[j + 1] == (if upper then SIXTEEN_CAPITALS else SIXTEEN)[x % 16]
  }

  lemma BodyShows(u: UUID, upper: bool, compact: bool, k: nat, j: nat)
    requires k < 16 && j == At(k, compact)
    ensures ShowsByte(Body(u, upper, compact, 16), j, u[k], upper)
  {
    BodyDigits(u, upper, compact, 16, k);
    DigitsListed(u[k] / 16, upper);
    DigitsListed(u[k] % 16, upper);
  }

  lemma AtListed(k: nat, compact: bool)
    requires k < 16
    ensures At(k, compact) == if compact then 2 * k else DASHED[k]
  {
  }

  lemma BodyDashes(u: UUID, upper: bool, b: string)
    requires b == Body(u, upper, false, 16)
    ensures |b| == 36 && b[8] == b[13] == b[18] == b[23] == '-'
  {
    LengthIs(16, false);
    BodyFits(u, upper, false, 16);
    assert Fits(b[8], 8, false) && Fits(b[13], 13, false) && Fits(b[18], 18, false) && Fits(b[23], 23, false);
  }

  /** Every character of a text: braces, dashes, and the two digits of each byte. */
  predicate Spells(t: string, u: UUID, upper: bool, ms: bool, compact: bool, k: nat)
    requires k < 16
  {
    var o := if ms then 1 else 0;
    && |t| == 2 * o + (if compact then 32 else 36)
    && ShowsByte(t, o + if compact then 2 * k else DASHED[k], u[k], upper)
    && (ms ==> t[0] == '{' && t[|t| - 1] == '}')
    && (!compact ==> t[o + 8] == t[o + 13] == t[o + 18] == t[o + 23] == '-')
  }

  lemma TextChars(u: UUID, upper: bool, ms: bool, compact: bool, k: nat)
    requires k < 16
    ensures Spells(Text(u, upper, ms, compact), u, upper, ms, compact, k)
  {
    var b := Body(u, upper, compact, 16);
    AtListed(k, compact);
    LengthIs(16, compact);
    BodyShows(u, upper, compact, k, At(k, compact));
    if !compact {
      BodyDashes(u, upper, b);
    }
    SpellsInBraces(b, u, upper, ms, compact, k, Text(u, upper, ms, compact));
  }

  lemma SpellsInBraces(b: string, u: UUID, upper: bool, ms: bool, compact: bool, k: nat, t: string)
    requires k < 16 && Spells(b, u, upper, false, compact, k)
    requires t == (if ms then "{" else "") + b + (if ms then "}" else "")
    ensures Spells(t, u, upper, ms, compact, k)
  {
    assert ms ==> forall j | 0 <= j < |b| :: t[1 + j] == b[j];
  }

  lemma DigitsListed(x: nat, upper: bool)
    requires x < 16
    ensures Digit(x, upper) == (if upper then SIXTEEN_CAPITALS else SIXTEEN)[x]
  {
  }

  function Lower(s: string): (r: string)
    ensures |r| == |s|
  {
    seq(|s|, i requires 0 <= i < |s| => ToLower(s[i]))
  }

  lemma LowerAppend(a: string, b: string)
    ensures Lower(a + b) == Lower(a) + Lower(b)
  {
  }

  lemma PairOf(hi: nat, lo: nat)
    requires hi < 16 && lo < 16
    ensures Pair(16 * hi + lo, false) == [Digit(hi, false), Digit(lo, false)]
  {
    NibblesSplit(hi, lo);
  }

  lemma LowerPair(c1: char, c2: char)
    requires IsXDigit(c1) && IsXDigit(c2)
    ensures Lower([c1, c2]) == Pair(16 * Denibble(c1) + Denibble(c2), false)
  {
    DigitsBack(c1);
    DigitsBack(c2);
    PairOf(Denibble(c1), Denibble(c2));
  }

  lemma PairBack(b: string, compact: bool, k: nat)
    requires IsBody(b, compact) && k < 16
    ensures At(k, compact) + 2 <= |b|
    ensures Pair(ByteAt(b, compact, k), false) == Lower(b[At(k, compact)..At(k, compact) + 2])
  {
    AtIsDigits(k, compact);
    PairLowered(b, At(k, compact));
  }

  lemma PairLowered(b: string, j: nat)
    requires j + 2 <= |b| && IsXDigit(b[j]) && IsXDigit(b[j + 1])
    ensures Lower(b[j..j + 2]) == Pair(16 * Denibble(b[j]) + Denibble(b[j + 1]), false)
  {
    LowerPair(b[j], b[j + 1]);
    assert b[j..j + 2] == [b[j], b[j + 1]];
  }

  /** The stretch of one byte in a body: its dash, if it has one, and its digits. */
  lemma Stretch(b: string, compact: bool, n: nat)
    requires IsBody(b, compact) && n < 16
    ensures Length(n, compact) <= At(n, compact) && At(n, compact) + 2 == Length(n + 1, compact) <= |b|
    ensures b[..Length(n + 1, compact)]
      == b[..Length(n, compact)] + (if DashBefore(n, compact) then "-" else "") + b[At(n, compact)..At(n, compact) + 2]
  {
    AtIsDigits(n, compact);
    var l, j := Length(n, compact), At(n, compact);
    assert b[..j + 2] == b[..l] + b[l..j] + b[j..j + 2];
    if DashBefore(n, compact) {
      assert Fits(b[l], l, compact);
    }
    assert b[l..j] == if DashBefore(n, compact) then "-" else "";
  }

  lemma LowerStretch(a: string, dash: string, pair: string)
    requires dash == "" || dash == "-"
    ensures Lower(a + dash + pair) == Lower(a) + dash + Lower(pair)
  {
    LowerAppend(a + dash, pair);
    LowerAppend(a, dash);
    assert Lower(dash) == dash;
  }

  lemma BodyBackStep(b: string, u: UUID, compact: bool, n: nat, short: string, pair: string)
    requires IsBody(b, compact) && n < 16 && u[n] == ByteAt(b, compact, n) && Length(n, compact) <= |b|
    requires short == Body(u, false, compact, n) == Lower(b[..Length(n, compact)]) && pair == Pair(u[n], false)
    ensures Length(n + 1, compact) <= |b|
    ensures short + (if DashBefore(n, compact) then "-" else "") + pair == Lower(b[..Length(n + 1, compact)])
  {
    var j := At(n, compact);
    Stretch(b, compact, n);
    PairBack(b, compact, n);
    LowerStretch(b[..Length(n, compact)], if DashBefore(n, compact) then "-" else "", b[j..j + 2]);
  }

  lemma {:induction false} BodyBack(b: string, u: UUID, compact: bool, n: nat)
    requires IsBody(b, compact) && n <= 16
    requires forall k | 0 <= k < 16 :: u[k] == ByteAt(b, compact, k)
    ensures Length(n, compact) <= |b|
    ensures Body(u, false, compact, n) == Lower(b[..Length(n, compact)])
    decreases n
  {
    if n > 0 {
      BodyBack(b, u, compact, n - 1);
      BodyBackStep(b, u, compact, n - 1, Body(u, false, compact, n - 1), Pair(u[n - 1], false));
    }
  }

  // ----- parsing

  /** What vsc_uuid_parse makes of s: braces are decided by the length, and so are dashes. */
  function Parsed(s: string): Option<UUID> {
    var braces := |s| == 34 || |s| == 38;
    if braces && !Braced(s) then None
    else
      var b := if braces then Unbraced(s) else s;
      if IsBody(b, true) then Some(Decoded(b, true))
      else if IsBody(b, false) then Some(Decoded(b, false))
      else None
  }

  /** Exactly the grammar is accepted. */
  lemma ParsedGrammar(s: string)
    ensures Parsed(s).Some? <==> Grammar(s)
  {
    LengthIs(16, true);
    LengthIs(16, false);
  }

  lemma TextUnbraced(u: UUID, upper: bool, compact: bool)
    ensures Braced(Text(u, upper, true, compact))
    ensures Unbraced(Text(u, upper, true, compact)) == Body(u, upper, compact, 16)
    ensures Text(u, upper, false, compact) == Body(u, upper, compact, 16)
  {
  }

  /** Every UUID printed with any flags is read back. */
  lemma RoundTrip(u: UUID, upper: bool, ms: bool, compact: bool)
    ensures Parsed(Text(u, upper, ms, compact)) == Some(u)
  {
    Lengths(u, upper, ms, compact);
    LengthIs(16, compact);
    LengthIs(16, !compact);
    BodyRoundTrip(u, upper, compact);
    TextUnbraced(u, upper, compact);
  }

  lemma BodyReformat(b: string, compact: bool)
    requires IsBody(b, compact)
    ensures Lower(b) == Body(Decoded(b, compact), false, compact, 16)
  {
    BodyBack(b, Decoded(b, compact), compact, 16);
    assert b[..Length(16, compact)] == b;
  }

  lemma LowerBraces(s: string)
    requires Braced(s)
    ensures Lower(s) == "{" + Lower(Unbraced(s)) + "}"
  {
  }

  /** Every accepted text is its UUID printed again, up to the case of its letters. */
  lemma Reformat(s: string)
    requires Parsed(s).Some?
    ensures exists ms, compact :: Lower(s) == Text(Parsed(s).value, false, ms, compact)
  {
    var braces := |s| == 34 || |s| == 38;
    var b := if braces then Unbraced(s) else s;
    var compact := IsBody(b, true);
    LengthIs(16, true);
    LengthIs(16, false);
    BodyReformat(b, compact);
    if braces {
      LowerBraces(s);
    }
    assert Lower(s) == Text(Parsed(s).value, false, braces, compact);
  }

  // ----- the code

  /** What is in a buffer: text, and behind it whatever was there before. */
  predicate Shows(buf: seq<char>, before: seq<char>, text: string) {
    |text| <= |buf| == |before| && buf[..|text|] == text && buf[|text|..] == before[|text|..]
  }

  /** Writes characters at s and moves s past them. */
  method Put(dst: array<char>, s: nat, piece: string, ghost before: seq<char>, ghost text: string) returns (next: nat)
    requires s == |text| && s + |piece| <= dst.Length && Shows(dst[..], before, text)
    modifies dst
    ensures next == |text + piece| && Shows(dst[..], before, text + piece)
  {
    for i := 0 to |piece|
      invariant Shows(dst[..], before, text + piece[..i])
    {
      ghost var was := dst[..];
      dst[s + i] := piece[i];
      PutNext(was, dst[..], before, text + piece[..i], piece[i]);
      assert text + piece[..i + 1] == text + piece[..i] + [piece[i]];
    }
    assert piece[..|piece|] == piece;
    next := s + |piece|;
  }

  lemma PutNext(buf: seq<char>, buf2: seq<char>, before: seq<char>, text: string, c: char)
    requires Shows(buf, before, text) && |text| < |buf| && buf2 == buf[|text| := c]
    ensures Shows(buf2, before, text + [c])
  {
    assert buf2[..|text| + 1] == buf[..|text|] + [c];
    assert buf2[|text| + 1..] == buf[|text|..][1..];
    assert before[|text| + 1..] == before[|text|..][1..];
  }

  /** The text up to byte n, with its opening brace. */
  function Started(u: UUID, upper: bool, ms: bool, compact: bool, n: nat): string
    requires n <= 16
  {
    (if ms then "{" else "") + Body(u, upper, compact, n)
  }

  lemma StartedNext(u: UUID, upper: bool, ms: bool, compact: bool, n: nat)
    requires n < 16
    ensures Started(u, upper, ms, compact, n + 1)
      == Started(u, upper, ms, compact, n) + (if DashBefore(n, compact) then "-" else "") + Pair(u[n], upper)
  {
  }

  lemma StartedFits(u: UUID, upper: bool, ms: bool, compact: bool, n: nat)
    requires n <= 16
    ensures |Started(u, upper, ms, compact, n)| + 2 * (16 - n) + (if ms then 1 else 0) <= |Text(u, upper, ms, compact)|
    ensures n < 16 && DashBefore(n, compact) ==>
      |Started(u, upper, ms, compact, n)| + 1 + 2 * (16 - n) + (if ms then 1 else 0) <= |Text(u, upper, ms, compact)|
    ensures n == 16 ==> Text(u, upper, ms, compact) == Started(u, upper, ms, compact, n) + (if ms then "}" else "")
  {
    LengthIs(n, compact);
    LengthIs(16, compact);
  }

  /** vsc_uuid_format: the text and a terminator, and nothing behind it. */
  method Format(dst: array<char>, u: UUID, flags: bv32)
    requires dst.Length > |Text(u, flags & 1 != 0, flags & 4 != 0, flags & 8 != 0)|
    modifies dst
    ensures Shows(dst[..], old(dst[..]), Text(u, flags & 1 != 0, flags & 4 != 0, flags & 8 != 0) + ['\0'])
  {
    var upper, ms, compact := flags & FORMAT_UPPER != 0, flags & FORMAT_MS != 0, flags & FORMAT_COMPACT != 0;
    WriteText(dst, u, upper, ms, compact);
  }

  /** Byte i of the text, with the dash before it. */
  method WriteByte(dst: array<char>, s0: nat, u: UUID, upper: bool, ms: bool, compact: bool, i: nat, ghost before: seq<char>)
      returns (s: nat)
    requires i < 16 && dst.Length > |Text(u, upper, ms, compact)|
    requires s0 == |Started(u, upper, ms, compact, i)| && Shows(dst[..], before, Started(u, upper, ms, compact, i))
    modifies dst
    ensures s == |Started(u, upper, ms, compact, i + 1)| && Shows(dst[..], before, Started(u, upper, ms, compact, i + 1))
  {
    s := s0;
    ghost var text := Started(u, upper, ms, compact, i);
    StartedFits(u, upper, ms, compact, i);
    StartedNext(u, upper, ms, compact, i);
    if DashBefore(i, compact) {
      s := Put(dst, s, "-", before, text);
      text := text + "-";
    }
    AlphabetDigits(u[i] / 16, upper);
    AlphabetDigits(u[i] % 16, upper);
    s := Put(dst, s, [Alphabet(upper)[u[i] / 16], Alphabet(upper)[u[i] % 16]], before, text);
  }

  method WriteText(dst: array<char>, u: UUID, upper: bool, ms: bool, compact: bool)
    requires dst.Length > |Text(u, upper, ms, compact)|
    modifies dst
    ensures Shows(dst[..], old(dst[..]), Text(u, upper, ms, compact) + ['\0'])
  {
    ghost var before := dst[..];
    var s: nat := 0;
    if ms {
      s := Put(dst, s, "{", before, "");
    }
    for i := 0 to 16
      invariant s == |Started(u, upper, ms, compact, i)| && Shows(dst[..], before, Started(u, upper, ms, compact, i))
    {
      s := WriteByte(dst, s, u, upper, ms, compact, i, before);
    }
    ghost var text := Started(u, upper, ms, compact, 16);
    StartedFits(u, upper, ms, compact, 16);
    if ms {
      s := Put(dst, s, "}", before, text);
      text := text + "}";
    }
    s := Put(dst, s, ['\0'], before, text);
  }

  /** The first i characters of a body are right and k bytes are read from them. */
  predicate Midway(b: string, compact: bool, i: nat, k: nat, v: seq<byte>) {
    && k <= 16 && i <= |b| == Length(16, compact) && |v| == 16
    && (i == Length(k, compact) || (k < 16 && i == At(k, compact)))
    && (forall j | 0 <= j < i :: Fits(b[j], j, compact))
    && (forall n | 0 <= n < k :: ByteIs(b, compact, n, v[n]))
  }

  predicate ByteIs(b: string, compact: bool, n: nat, x: byte)
    requires n < 16
  {
    var j := At(n, compact);
    j + 1 < |b| && IsXDigit(b[j]) && IsXDigit(b[j + 1]) && x == 16 * Denibble(b[j]) + Denibble(b[j + 1])
  }

  lemma MidwayDone(b: string, compact: bool, i: nat, k: nat, v: seq<byte>)
    requires Midway(b, compact, i, k, v) && i == |b|
    ensures k == 16 && IsBody(b, compact) && v == Decoded(b, compact)
  {
    LengthIs(k, compact);
    LengthIs(16, compact);
    if k < 16 {
      AtIsDigits(k, compact);
    }
    forall n | 0 <= n < 16 ensures v[n] == ByteAt(b, compact, n) {
      assert ByteIs(b, compact, n, v[n]);
    }
  }

  /** A dash in its place. */
  lemma MidwayDash(b: string, compact: bool, i: nat, k: nat, v: seq<byte>)
    requires Midway(b, compact, i, k, v) && i < |b| && !compact && DashAt(i)
    ensures b[i] == '-' ==> Midway(b, compact, i + 1, k, v)
  {
    LengthIs(k, compact);
    LengthIs(16, compact);
    AtIsDigits(k, compact);
  }

  /** Two characters that are not at a dash are the digits of the next byte. */
  lemma MidwayPair(b: string, compact: bool, i: nat, k: nat, v: seq<byte>)
    requires Midway(b, compact, i, k, v) && i < |b| && (compact || !DashAt(i))
    ensures k < 16 && i == At(k, compact) && i + 1 < |b| && (compact || !DashAt(i + 1))
  {
    LengthIs(k, compact);
    LengthIs(16, compact);
    if k < 16 {
      AtIsDigits(k, compact);
    }
  }

  lemma MidwayStored(b: string, compact: bool, i: nat, k: nat, v: seq<byte>, x: byte)
    requires Midway(b, compact, i, k, v) && k < 16 && i == At(k, compact) && ByteIs(b, compact, k, x)
    requires compact || (!DashAt(i) && !DashAt(i + 1))
    ensures Midway(b, compact, i + 2, k + 1, v[k := x])
  {
    AtIsDigits(k, compact);
  }

  /** The loop of vsc_uuid_parse over a body of the right length. */
  method ReadBody(b: string, uuid: array<byte>, compact: bool) returns (ok: bool)
    requires uuid.Length == 16 && |b| == Length(16, compact)
    modifies uuid
    ensures ok <==> IsBody(b, compact)
    ensures ok ==> uuid[..] == Decoded(b, compact)
  {
    var i: nat, k: nat := 0, 0;
    while i < |b|
      invariant i <= |b| && Midway(b, compact, i, k, uuid[..])
    {
      if !compact && DashAt(i) {
        MidwayDash(b, compact, i, k, uuid[..]);
        if b[i] != '-' {
          assert !Fits(b[i], i, compact);
          return false;
        }
        i := i + 1;
        continue;
      }
      MidwayPair(b, compact, i, k, uuid[..]);
      var c1, c2 := b[i], b[i + 1];
      if !IsXDigit(c1) || !IsXDigit(c2) {
        assert !Fits(b[i], i, compact) || !Fits(b[i + 1], i + 1, compact);
        return false;
      }
      MidwayStored(b, compact, i, k, uuid[..], 16 * Denibble(c1) + Denibble(c2));
      uuid[k] := 16 * Denibble(c1) + Denibble(c2);
      i, k := i + 2, k + 1;
    }
    MidwayDone(b, compact, i, k, uuid[..]);
    ok := true;
  }

  /** vsc_uuid_parse. None and null stand for NULL arguments. */
  method Parse(uuid: array?<byte>, text: Option<string>) returns (status: Status)
    requires uuid != null ==> uuid.Length == 16
    modifies uuid
    ensures status == (if uuid != null && text.Some? && Parsed(text.value).Some? then Ok else EINVAL)
    ensures status == Ok ==> uuid[..] == Parsed(text.value).value
  {
    if uuid == null || text.None? {
      return EINVAL;
    }
    var s := text.value;
    var len := |s|;
    var hasBraces := len == 34 || len == 38;
    LengthIs(16, true);
    LengthIs(16, false);
    if hasBraces {
      if s[0] != '{' || s[len - 1] != '}' {
        return EINVAL;
      }
      s := s[1..len - 1];
      len := len - 2;
    }
    if len != 32 && len != 36 {
      return EINVAL;
    }
    var ok := ReadBody(s, uuid, len == 32);
    status := if ok then Ok else EINVAL;
  }
}
