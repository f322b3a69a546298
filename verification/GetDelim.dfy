/** vsc_getdelima: reading delimited records from a stream into a buffer that doubles. */
module GetDelim {
  import opened Machine

  const SSIZE_MAX: nat := 0x7FFF_FFFF_FFFF_FFFF

  /** What a FILE still has to give: bytes, then the end of the file or, if broken, a read error, which sticks. */
  class Stream {
    var rest: seq<byte>
    var broken: bool
    var error: bool

    /** getc; None is EOF. */
    method GetC() returns (c: Option<byte>)
      modifies this
      ensures broken == old(broken)
      ensures old(rest) != [] ==> c == Some(old(rest)[0]) && rest == old(rest)[1..] && error == old(error)
      ensures old(rest) == [] ==> c == None && rest == [] && error == (old(error) || broken)
    {
      if rest != [] {
        c := Some(rest[0]);
        rest := rest[1..];
      } else {
        c := None;
        error := error || broken;
      }
    }
  }

  // ----- records

  /** s up to and including its first delimiter, or all of it. */
  function Record(s: seq<byte>, delim: int): (r: seq<byte>)
    ensures r <= s
    ensures s != [] ==> r != []
  {
    if s == [] then []
    else if s[0] == delim then [s[0]]
    else [s[0]] + Record(s[1..], delim)
  }

  /** The records of a whole stream. */
  function Records(s: seq<byte>, delim: int): (r: seq<seq<byte>>)
    decreases |s|
  {
    if s == [] then [] else [Record(s, delim)] + Records(s[|Record(s, delim)|..], delim)
  }

  function Concat(l: seq<seq<byte>>): seq<byte> {
    if l == [] then [] else l[0] + Concat(l[1..])
  }

  lemma {:induction false} RecordShape(s: seq<byte>, delim: int)
    ensures var r := Record(s, delim);
      (forall i | 0 <= i < |r| - 1 :: r[i] != delim) && (|r| < |s| ==> r != [] && r[|r| - 1] == delim)
    decreases |s|
  {
    if s != [] && s[0] != delim {
      RecordShape(s[1..], delim);
      var r, t := Record(s, delim), Record(s[1..], delim);
      forall i | 0 <= i < |r| - 1 ensures r[i] != delim {
        if i > 0 {
          assert r[i] == t[i - 1];
        }
      }
    }
  }

  /**
   * Reading record after record gives the whole stream back: none is empty, each has its delimiter at its end and
   * nowhere else, but that the last may have none.
   */
  lemma {:induction false} RecordsWhole(s: seq<byte>, delim: int)
    ensures Concat(Records(s, delim)) == s
    ensures forall k | 0 <= k < |Records(s, delim)| :: WellFormed(Records(s, delim)[k], delim, k == |Records(s, delim)| - 1)
    decreases |s|
  {
    if s != [] {
      var r, rs := Record(s, delim), Records(s, delim);
      var t := s[|r|..];
      RecordShape(s, delim);
      RecordsWhole(t, delim);
      assert rs[1..] == Records(t, delim);
      forall k | 0 <= k < |rs| ensures WellFormed(rs[k], delim, k == |rs| - 1) {
        if k > 0 {
          assert rs[k] == Records(t, delim)[k - 1];
        }
      }
    }
  }

  predicate WellFormed(r: seq<byte>, delim: int, last: bool) {
    && r != [] && (forall i | 0 <= i < |r| - 1 :: r[i] != delim)
    && (last || r[|r| - 1] == delim)
  }

  // ----- growing

  /** The outcome of doubling n until it is at least need: the capacity, or the error that stops it. */
  datatype Growth = Capacity(n: nat) | Stuck(why: Status)

  function Grown(n: nat, need: nat, canAlloc: nat -> bool): (g: Growth)
    ensures g.Capacity? ==> g.n >= need && g.n >= n
    ensures g.Stuck? ==> g.why == EOVERFLOW || g.why == ENOMEM
    decreases need - n, n == 0
  {
    if n >= need then Capacity(n)
    else if SSIZE_MAX / 2 < n then Stuck(EOVERFLOW)
    else if n == 0 || !canAlloc(2 * n) then Stuck(ENOMEM)
    else Grown(2 * n, need, canAlloc)
  }

  /** Growing by stages is growing at once. */
  lemma {:induction false} GrownTwice(n: nat, need: nat, need2: nat, canAlloc: nat -> bool)
    requires need <= need2
    ensures Grown(n, need, canAlloc).Capacity? ==>
      Grown(n, need2, canAlloc) == Grown(Grown(n, need, canAlloc).n, need2, canAlloc)
    ensures Grown(n, need, canAlloc).Stuck? ==> Grown(n, need2, canAlloc) == Grown(n, need, canAlloc)
    decreases need - n
  {
    if n < need && !(SSIZE_MAX / 2 < n) && n != 0 && canAlloc(2 * n) {
      GrownTwice(2 * n, need, need2, canAlloc);
    }
  }

  /** With memory to be had, any start of at least 1 grows to any need that leaves room below SSIZE_MAX. */
  lemma {:induction false} GrownAlways(n: nat, need: nat, canAlloc: nat -> bool)
    requires n >= 1 && need <= SSIZE_MAX / 2 && forall k: nat :: canAlloc(k)
    ensures Grown(n, need, canAlloc).Capacity?
    ensures n < need ==> Grown(n, need, canAlloc).n < 2 * need
    decreases need - n
  {
    if n < need {
      GrownAlways(2 * n, need, canAlloc);
    }
  }

  /** n doubled k times. */
  function Doubled(n: nat, k: nat): nat
    decreases k
  {
    if k == 0 then n else Doubled(2 * n, k - 1)
  }

  /** The first k doublings of n are all needed, small enough to be made, and granted. */
  predicate Doublings(n: nat, need: nat, canAlloc: nat -> bool, k: nat)
    decreases k
  {
    k == 0 || (0 < n < need && n <= 0x3FFF_FFFF_FFFF_FFFF && canAlloc(2 * n) && Doublings(2 * n, need, canAlloc, k - 1))
  }

  lemma {:induction false} GrownBy(n: nat, need: nat, canAlloc: nat -> bool) returns (k: nat)
    requires Grown(n, need, canAlloc).Capacity?
    ensures Doublings(n, need, canAlloc, k) && Grown(n, need, canAlloc).n == Doubled(n, k)
    decreases need - n
  {
    k := 0;
    if n < need {
      k := GrownBy(2 * n, need, canAlloc);
      k := k + 1;
    }
  }

  lemma {:induction false} DoublingsGrow(n: nat, need: nat, canAlloc: nat -> bool, k: nat)
    requires Doublings(n, need, canAlloc, k) && Doubled(n, k) >= need
    ensures Grown(n, need, canAlloc) == Capacity(Doubled(n, k))
    decreases k
  {
    if k > 0 {
      DoublingsGrow(2 * n, need, canAlloc, k - 1);
    }
  }

  /** The capacity reached is the first of n, 2n, 4n, .. that is enough, every step on the way being allowed and granted. */
  lemma GrownExact(n: nat, need: nat, canAlloc: nat -> bool, m: nat)
    ensures Grown(n, need, canAlloc) == Capacity(m)
      <==> exists k: nat :: Doublings(n, need, canAlloc, k) && m == Doubled(n, k) && m >= need
  {
    if Grown(n, need, canAlloc) == Capacity(m) {
      var k := GrownBy(n, need, canAlloc);
    }
    forall k: nat | Doublings(n, need, canAlloc, k) && m == Doubled(n, k) && m >= need
      ensures Grown(n, need, canAlloc) == Capacity(m)
    {
      DoublingsGrow(n, need, canAlloc, k);
    }
  }

  // ----- one record

  /** cur bytes of s are read, none of them the delimiter. */
  predicate Reading(s: seq<byte>, delim: int, cur: nat) {
    cur <= |s| && forall i | 0 <= i < cur :: s[i] != delim
  }

  lemma {:induction false} ReadingEnds(s: seq<byte>, delim: int, cur: nat)
    requires Reading(s, delim, cur)
    ensures cur == |s| ==> Record(s, delim) == s && !Ends(s, delim)
    ensures cur < |s| && s[cur] == delim ==> Record(s, delim) == s[..cur + 1] && Ends(s, delim)
    ensures cur < |s| ==> |Record(s, delim)| >= cur + 1
    decreases |s|
  {
    if s != [] {
      if cur > 0 {
        ReadingEnds(s[1..], delim, cur - 1);
        assert s == [s[0]] + s[1..];
      } else {
        assert s[..1] == [s[0]];
      }
    }
  }

  /** The record of s is closed by a delimiter. */
  predicate Ends(s: seq<byte>, delim: int) {
    var r := Record(s, delim);
    r != [] && r[|r| - 1] == delim
  }

  /** What reading one record comes to, from a sound stream holding s and a buffer of n bytes. */
  function Outcome(s: seq<byte>, broken: bool, delim: int, n: nat, canAlloc: nat -> bool): Status {
    if s == [] then EndOfFile
    else
      var g := Grown(n, |Record(s, delim)| + 1, canAlloc);
      if g.Stuck? then g.why
      else if broken && !Ends(s, delim) then EndOfFile
      else Ok
  }

  /** A record and its terminator that fit are read without growing; others need a first doubling. */
  lemma OutcomeExact(s: seq<byte>, broken: bool, delim: int, n: nat, canAlloc: nat -> bool)
    ensures s == [] ==> Outcome(s, broken, delim, n, canAlloc) == EndOfFile
    ensures s != [] && |Record(s, delim)| + 1 <= n ==>
      Outcome(s, broken, delim, n, canAlloc) == (if broken && !Ends(s, delim) then EndOfFile else Ok)
      && Grown(n, |Record(s, delim)| + 1, canAlloc) == Capacity(n)
    ensures s != [] && |Record(s, delim)| + 1 > n > 0x3FFF_FFFF_FFFF_FFFF ==> Outcome(s, broken, delim, n, canAlloc) == EOVERFLOW
    ensures s != [] && |Record(s, delim)| + 1 > n && n <= 0x3FFF_FFFF_FFFF_FFFF && (n == 0 || !canAlloc(2 * n)) ==>
      Outcome(s, broken, delim, n, canAlloc) == ENOMEM
    ensures s != [] && |Record(s, delim)| + 1 > n > 0 && n <= 0x3FFF_FFFF_FFFF_FFFF && canAlloc(2 * n) ==>
      Outcome(s, broken, delim, n, canAlloc) == Outcome(s, broken, delim, 2 * n, canAlloc)
  {
  }

  /** The capacity while the cursor is at cur. */
  predicate Room(n0: nat, n: nat, cur: nat, canAlloc: nat -> bool) {
    && (cur == 0 ==> n == n0)
    && (cur > 0 ==> Grown(n0, cur + 1, canAlloc) == Capacity(n))
  }

  /** One doubling is enough for one more byte, or it fails just as doubling for the whole record would. */
  lemma OneDoubling(n0: nat, n: nat, cur: nat, len: nat, canAlloc: nat -> bool)
    requires Room(n0, n, cur, canAlloc) && cur < len
    ensures n >= cur + 2 ==> Room(n0, n, cur + 1, canAlloc)
    ensures n < cur + 2 && SSIZE_MAX / 2 < n ==> Grown(n0, len + 1, canAlloc) == Stuck(EOVERFLOW)
    ensures n < cur + 2 && SSIZE_MAX / 2 >= n && (n == 0 || !canAlloc(2 * n)) ==>
      Grown(n0, len + 1, canAlloc) == Stuck(ENOMEM)
    ensures n < cur + 2 && SSIZE_MAX / 2 >= n && n != 0 && canAlloc(2 * n) ==>
      2 * n >= cur + 2 && Room(n0, 2 * n, cur + 1, canAlloc)
  {
    if cur > 0 {
      GrownTwice(n0, cur + 1, cur + 2, canAlloc);
    }
    GrownTwice(n0, cur + 2, len + 1, canAlloc);
  }

  /** The buffer starts with the first cur bytes of s. */
  predicate Filled(buf: seq<byte>, s: seq<byte>, cur: nat) {
    cur <= |buf| && cur <= |s| && buf[..cur] == s[..cur]
  }

  lemma FillNext(buf: seq<byte>, buf2: seq<byte>, s: seq<byte>, cur: nat)
    requires Filled(buf, s, cur) && cur < |s| && |buf| <= |buf2| && cur < |buf2| && buf2[..|buf|] == buf
    ensures Filled(buf2[cur := s[cur]], s, cur + 1)
  {
    assert buf2[..cur] == buf[..cur];
    assert buf2[cur := s[cur]][..cur + 1] == buf2[..cur] + [s[cur]];
  }

  /** One more byte is read, and it is stored. */
  lemma ReadNext(s: seq<byte>, delim: int, cur: nat)
    requires Reading(s, delim, cur) && cur < |s|
    ensures s[cur..] != [] && s[cur..][0] == s[cur] && s[cur..][1..] == s[cur + 1..]
    ensures s[cur] != delim ==> Reading(s, delim, cur + 1)
  {
  }

  /** vsc_xrealloc of a buffer: a larger one that starts with the old, or nothing. */
  method Realloc(line: array<byte>, newLen: nat, canAlloc: nat -> bool) returns (r: array?<byte>)
    requires newLen >= line.Length
    ensures r != null <==> newLen != 0 && canAlloc(newLen)
    ensures r != null ==> fresh(r) && r.Length == newLen && r[..line.Length] == line[..]
  {
    if newLen == 0 || !canAlloc(newLen) {
      return null;
    }
    var a := new byte[newLen](i => 0);
    for i := 0 to line.Length
      invariant a[..i] == line[..i]
    {
      a[i] := line[i];
    }
    assert line[..line.Length] == line[..];
    r := a;
  }

  /** Makes room for one more byte and the terminator behind the cursor. */
  method EnsureRoom(line: array<byte>, n: nat, cur: nat, canAlloc: nat -> bool) returns (status: Status, newLine: array<byte>, newN: nat)
    requires line.Length == n && (cur < n || cur == n == 0)
    ensures n >= cur + 2 ==> status == Ok && newLine == line && newN == n
    ensures n < cur + 2 && SSIZE_MAX / 2 < n ==> status == EOVERFLOW
    ensures n < cur + 2 && SSIZE_MAX / 2 >= n && (n == 0 || !canAlloc(2 * n)) ==> status == ENOMEM
    ensures n < cur + 2 && SSIZE_MAX / 2 >= n && n != 0 && canAlloc(2 * n) ==> status == Ok && newN == 2 * n && fresh(newLine)
    ensures status != Ok ==> newLine == line && newN == n
    ensures newLine.Length == newN && newN >= n && newLine[..n] == line[..]
  {
    status, newLine, newN := Ok, line, n;
    if n - cur < 2 {
      if SSIZE_MAX / 2 < n {
        return EOVERFLOW, line, n;
      }
      var r := Realloc(line, n * 2, canAlloc);
      if r == null {
        return ENOMEM, line, n;
      }
      newLine, newN := r, n * 2;
    }
  }

  /** Where the loop stands: cur bytes read and stored, none the delimiter, in the capacity doubling has led to. */
  predicate Standing(s: seq<byte>, delim: int, n0: nat, n: nat, cur: nat, canAlloc: nat -> bool) {
    Reading(s, delim, cur) && Room(n0, n, cur, canAlloc) && (cur < n || cur == n == 0)
  }

  lemma AtEnd(s: seq<byte>, broken: bool, delim: int, n0: nat, n: nat, cur: nat, canAlloc: nat -> bool)
    requires Standing(s, delim, n0, n, cur, canAlloc) && cur == |s|
    ensures broken || cur == 0 ==> Outcome(s, broken, delim, n0, canAlloc) == EndOfFile
    ensures !broken && cur > 0 ==> Outcome(s, broken, delim, n0, canAlloc) == Ok
    ensures Record(s, delim) == s && (cur > 0 ==> Grown(n0, cur + 1, canAlloc) == Capacity(n))
  {
    ReadingEnds(s, delim, cur);
  }

  lemma AtByte(s: seq<byte>, broken: bool, delim: int, n0: nat, n: nat, cur: nat, canAlloc: nat -> bool)
    requires Standing(s, delim, n0, n, cur, canAlloc) && cur < |s|
    ensures n < cur + 2 && SSIZE_MAX / 2 < n ==> Outcome(s, broken, delim, n0, canAlloc) == EOVERFLOW
    ensures n < cur + 2 && SSIZE_MAX / 2 >= n && (n == 0 || !canAlloc(2 * n)) ==>
      Outcome(s, broken, delim, n0, canAlloc) == ENOMEM
  {
    ReadingEnds(s, delim, cur);
    OneDoubling(n0, n, cur, |Record(s, delim)|, canAlloc);
  }

  /** After room is made: either the record is complete or the loop goes on. */
  lemma AfterByte(s: seq<byte>, broken: bool, delim: int, n0: nat, n: nat, n2: nat, cur: nat, canAlloc: nat -> bool)
    requires Standing(s, delim, n0, n, cur, canAlloc) && cur < |s|
    requires n2 == n >= cur + 2 || (n < cur + 2 && n <= SSIZE_MAX / 2 && n != 0 && canAlloc(2 * n) && n2 == 2 * n)
    ensures n2 >= cur + 2
    ensures s[cur] != delim ==> Standing(s, delim, n0, n2, cur + 1, canAlloc)
    ensures s[cur] == delim ==> Outcome(s, broken, delim, n0, canAlloc) == Ok && Record(s, delim) == s[..cur + 1]
    ensures s[cur] == delim ==> Grown(n0, cur + 2, canAlloc) == Capacity(n2)
  {
    ReadingEnds(s, delim, cur);
    OneDoubling(n0, n, cur, cur + 1, canAlloc);
  }

  /** One pass of the loop once a byte is there: make room, store it. */
  method StoreByte(line0: array<byte>, n0: nat, cur: nat, c: byte, ghost s: seq<byte>, canAlloc: nat -> bool)
      returns (status: Status, line: array<byte>, n: nat)
    requires line0.Length == n0 && (cur < n0 || cur == n0 == 0)
    requires Filled(line0[..], s, cur) && cur < |s| && s[cur] == c
    modifies line0
    ensures n0 < cur + 2 && SSIZE_MAX / 2 < n0 ==> status == EOVERFLOW
    ensures n0 < cur + 2 && SSIZE_MAX / 2 >= n0 && (n0 == 0 || !canAlloc(2 * n0)) ==> status == ENOMEM
    ensures n0 >= cur + 2 ==> status == Ok && n == n0
    ensures n0 < cur + 2 && SSIZE_MAX / 2 >= n0 && n0 != 0 && canAlloc(2 * n0) ==> status == Ok && n == 2 * n0
    ensures status != Ok ==> line == line0 && n == n0
    ensures line.Length == n && (line == line0 || fresh(line))
    ensures status == Ok ==> Filled(line[..], s, cur + 1)
  {
    ghost var before := line0[..];
    status, line, n := EnsureRoom(line0, n0, cur, canAlloc);
    if status == Ok {
      FillNext(before, line[..], s, cur);
      line[cur] := c;
    }
  }

  /** The same, with what it means for the record. */
  method TakeByte(line0: array<byte>, m: nat, cur: nat, c: byte, ghost s: seq<byte>, ghost broken: bool, ghost delim: int,
                  ghost n0: nat, canAlloc: nat -> bool)
      returns (status: Status, line: array<byte>, n: nat)
    requires line0.Length == m && Standing(s, delim, n0, m, cur, canAlloc)
    requires Filled(line0[..], s, cur) && cur < |s| && s[cur] == c
    modifies line0
    ensures line.Length == n && (line == line0 || fresh(line))
    ensures status != Ok ==> status == Outcome(s, broken, delim, n0, canAlloc)
    ensures status == Ok ==> Filled(line[..], s, cur + 1) && n >= cur + 2
    ensures status == Ok && c != delim ==> Standing(s, delim, n0, n, cur + 1, canAlloc)
    ensures status == Ok && c == delim ==> Outcome(s, broken, delim, n0, canAlloc) == Ok && Record(s, delim) == s[..cur + 1]
    ensures status == Ok && c == delim ==> Grown(n0, cur + 2, canAlloc) == Capacity(n)
  {
    AtByte(s, broken, delim, n0, m, cur, canAlloc);
    status, line, n := StoreByte(line0, m, cur, c, s, canAlloc);
    if status == Ok {
      AfterByte(s, broken, delim, n0, m, n, cur, canAlloc);
    }
  }

  /** The loop of vsc_getdelima, over a buffer there is. */
  method ReadRecord(line0: array<byte>, n0: nat, delim: int, stream: Stream, canAlloc: nat -> bool)
      returns (status: Status, len: nat, line: array<byte>, n: nat, ghost taken: nat)
    requires line0.Length == n0 && !stream.error
    modifies line0, stream
    ensures status == Outcome(old(stream.rest), old(stream.broken), delim, n0, canAlloc)
    ensures taken <= |old(stream.rest)| && stream.rest == old(stream.rest)[taken..]
    ensures stream.broken == old(stream.broken) && (status == Ok ==> !stream.error)
    ensures line.Length == n && (line == line0 || fresh(line))
    ensures status == Ok ==>
      taken == len == |Record(old(stream.rest), delim)| < n && Grown(n0, len + 1, canAlloc) == Capacity(n)
      && line[..len] == Record(old(stream.rest), delim) && line[len] == 0
  {
    var cur: nat := 0;
    line, n, taken := line0, n0, 0;
    ghost var s, broken := stream.rest, stream.broken;
    len := 0;
    while true
      invariant !stream.error && stream.broken == broken && taken == cur <= |s| && stream.rest == s[cur..]
      invariant line.Length == n && (line == line0 || fresh(line))
      invariant Standing(s, delim, n0, n, cur, canAlloc) && Filled(line[..], s, cur)
      decreases |s| - cur
    {
      if cur < |s| {
        ReadNext(s, delim, cur);
      } else {
        AtEnd(s, broken, delim, n0, n, cur, canAlloc);
      }
      var c := stream.GetC();
      if stream.error || (c.None? && cur == 0) {
        return EndOfFile, 0, line, n, taken;
      }
      if c.None? {
        break;
      }
      taken := cur + 1;
      status, line, n := TakeByte(line, n, cur, c.value, s, broken, delim, n0, canAlloc);
      if status != Ok {
        return status, 0, line, n, taken;
      }
      cur := cur + 1;
      if c.value == delim {
        break;
      }
    }
    Terminate(line, cur, s);
    status, len := Ok, cur;
  }

  method Terminate(line: array<byte>, cur: nat, ghost s: seq<byte>)
    requires cur < line.Length && Filled(line[..], s, cur)
    modifies line
    ensures line[..cur] == s[..cur] && line[cur] == 0
  {
    assert line[..cur] == line[..][..cur];
    line[cur] := 0;
  }

  /** vsc_getdelima. Without a buffer it starts one of 128 bytes. */
  method GetDelimA(line0: array?<byte>, n0: nat, delim: int, stream: Stream, canAlloc: nat -> bool)
      returns (status: Status, len: nat, line: array?<byte>, n: nat, ghost taken: nat)
    requires line0 != null ==> line0.Length == n0
    modifies line0, stream
    ensures line0 == null && !canAlloc(128) ==>
      status == ENOMEM && line == null && stream.rest == old(stream.rest) && stream.error == old(stream.error)
    ensures (line0 != null || canAlloc(128)) && old(stream.error) ==> status == EndOfFile
    ensures (line0 != null || canAlloc(128)) && !old(stream.error) ==>
      status == Outcome(old(stream.rest), old(stream.broken), delim, if line0 == null then 128 else n0, canAlloc)
    ensures taken <= |old(stream.rest)| && stream.rest == old(stream.rest)[taken..]
    ensures stream.broken == old(stream.broken) && (status == Ok ==> !stream.error)
    ensures line != null ==> line.Length == n && (line == line0 || fresh(line))
    ensures status == Ok ==> line != null && taken == len == |Record(old(stream.rest), delim)| < n
    ensures status == Ok ==> Grown(if line0 == null then 128 else n0, len + 1, canAlloc) == Capacity(n)
    ensures status == Ok ==> line[..len] == Record(old(stream.rest), delim) && line[len] == 0
  {
    line, n, len, taken := line0, n0, 0, 0;
    if line == null {
      n := 128;
      if !canAlloc(n) {
        return ENOMEM, 0, null, n, 0;
      }
      line := new byte[n](i => 0);
    }
    if stream.error {
      var c := stream.GetC();
      taken := if c.Some? then 1 else 0;
      return EndOfFile, 0, line, n, taken;
    }
    status, len, line, n, taken := ReadRecord(line, n, delim, stream, canAlloc);
  }

  // ----- record after record

  /** The capacity a buffer has after the first record of s, which it had room for. */
  function After(s: seq<byte>, delim: int, n: nat, canAlloc: nat -> bool): (m: nat)
    requires Grown(n, |Record(s, delim)| + 1, canAlloc).Capacity?
  {
    Grown(n, |Record(s, delim)| + 1, canAlloc).n
  }

  /** The records that calls with one buffer return until one of them fails. */
  function RecordsRead(s: seq<byte>, broken: bool, delim: int, n: nat, canAlloc: nat -> bool): seq<seq<byte>>
    decreases |s|
  {
    if Outcome(s, broken, delim, n, canAlloc) != Ok then []
    else
      var r := Record(s, delim);
      [r] + RecordsRead(s[|r|..], broken, delim, After(s, delim, n, canAlloc), canAlloc)
  }

  /** What the last of them returns. */
  function LastOutcome(s: seq<byte>, broken: bool, delim: int, n: nat, canAlloc: nat -> bool): (status: Status)
    ensures status != Ok
    decreases |s|
  {
    var o := Outcome(s, broken, delim, n, canAlloc);
    if o != Ok then o
    else LastOutcome(s[|Record(s, delim)|..], broken, delim, After(s, delim, n, canAlloc), canAlloc)
  }

  /** The length of the longest record of a stream. */
  function Longest(s: seq<byte>, delim: int): nat
    decreases |s|
  {
    if s == [] then 0
    else
      var r := Record(s, delim);
      var rest := Longest(s[|r|..], delim);
      if |r| >= rest then |r| else rest
  }

  /** The last record of the stream is closed by a delimiter, or there is none. */
  predicate Closed(s: seq<byte>, delim: int) {
    s == [] || s[|s| - 1] == delim
  }

  /** What is read is a prefix of the stream's records. */
  lemma {:induction false} ReadIsPrefix(s: seq<byte>, broken: bool, delim: int, n: nat, canAlloc: nat -> bool)
    ensures RecordsRead(s, broken, delim, n, canAlloc) <= Records(s, delim)
    decreases |s|
  {
    if Outcome(s, broken, delim, n, canAlloc) == Ok {
      ReadIsPrefix(s[|Record(s, delim)|..], broken, delim, After(s, delim, n, canAlloc), canAlloc);
    }
  }

  /** Growing for one record and then for another is growing for the longer. */
  lemma GrownBoth(n: nat, a: nat, b: nat, canAlloc: nat -> bool)
    ensures Grown(n, a, canAlloc).Capacity? && Grown(Grown(n, a, canAlloc).n, b, canAlloc).Capacity?
      <==> Grown(n, if a >= b then a else b, canAlloc).Capacity?
  {
    if a >= b {
      GrownTwice(n, b, a, canAlloc);
    } else {
      GrownTwice(n, a, b, canAlloc);
    }
  }

  lemma RecordClosed(s: seq<byte>, delim: int)
    requires s != []
    ensures var t := s[|Record(s, delim)|..];
      (t == [] ==> (Ends(s, delim) <==> Closed(s, delim)))
      && (t != [] ==> Ends(s, delim) && (Closed(t, delim) <==> Closed(s, delim)))
  {
    RecordShape(s, delim);
  }

  /** The buffer can grow for the longest record, and a broken stream breaks right after a delimiter. */
  predicate Fitting(s: seq<byte>, broken: bool, delim: int, n: nat, canAlloc: nat -> bool) {
    Reaches(s == [], Longest(s, delim), Closed(s, delim), broken, n, canAlloc)
  }

  predicate Reaches(empty: bool, longest: nat, closed: bool, broken: bool, n: nat, canAlloc: nat -> bool) {
    empty || (Grown(n, longest + 1, canAlloc).Capacity? && (!broken || closed))
  }

  /**
   * Every record is read, and the stream to its end, exactly when the longest fits the growth, and a broken stream
   * breaks right after a delimiter.
   */
  lemma {:induction false} ReadAllExact(s: seq<byte>, broken: bool, delim: int, n: nat, canAlloc: nat -> bool)
    ensures RecordsRead(s, broken, delim, n, canAlloc) == Records(s, delim) <==> Fitting(s, broken, delim, n, canAlloc)
    ensures RecordsRead(s, broken, delim, n, canAlloc) == Records(s, delim) ==>
      LastOutcome(s, broken, delim, n, canAlloc) == EndOfFile
    decreases |s|
  {
    if s != [] {
      var r := Record(s, delim);
      var t := s[|r|..];
      if Outcome(s, broken, delim, n, canAlloc) == Ok {
        var m := After(s, delim, n, canAlloc);
        ReadAllExact(t, broken, delim, m, canAlloc);
        ReadStep(s, broken, delim, n, canAlloc, r, t);
        TailsAgree(r, RecordsRead(t, broken, delim, m, canAlloc), Records(t, delim));
        GoesOn(s, broken, delim, n, canAlloc, r, t, m);
      } else {
        NothingRead(s, broken, delim, n, canAlloc);
        NotGrown(s, broken, delim, n, canAlloc, r, t);
      }
    }
  }

  /** After a record of length a that is read the condition on the stream is the one on the rest. */
  lemma ReachesOn(a: nat, ends: bool, emptyRest: bool, b: nat, closedRest: bool, longest: nat, closed: bool,
                  broken: bool, n: nat, m: nat, canAlloc: nat -> bool)
    requires Grown(n, a + 1, canAlloc) == Capacity(m) && (!broken || ends)
    requires longest == (if a >= b then a else b) && (emptyRest ==> b == 0)
    requires if emptyRest then ends == closed else ends && closedRest == closed
    ensures Reaches(false, longest, closed, broken, n, canAlloc) <==> Reaches(emptyRest, b, closedRest, broken, m, canAlloc)
  {
    GrowthGoesOn(n, m, a, b, longest, canAlloc);
  }

  lemma GoesOn(s: seq<byte>, broken: bool, delim: int, n: nat, canAlloc: nat -> bool, r: seq<byte>, t: seq<byte>, m: nat)
    requires s != [] && r == Record(s, delim) && t == s[|r|..] && Outcome(s, broken, delim, n, canAlloc) == Ok
    requires m == After(s, delim, n, canAlloc)
    ensures Fitting(s, broken, delim, n, canAlloc) <==> Fitting(t, broken, delim, m, canAlloc)
  {
    LongestOf(s, delim, r, t);
    RecordClosed(s, delim);
    OkMeans(s, broken, delim, n, canAlloc);
    ReachesOn(|r|, Ends(s, delim), t == [], Longest(t, delim), Closed(t, delim), Longest(s, delim), Closed(s, delim),
              broken, n, m, canAlloc);
  }

  lemma OkMeans(s: seq<byte>, broken: bool, delim: int, n: nat, canAlloc: nat -> bool)
    requires Outcome(s, broken, delim, n, canAlloc) == Ok
    ensures s != [] && Grown(n, |Record(s, delim)| + 1, canAlloc).Capacity? && (!broken || Ends(s, delim))
  {
  }

  lemma GrowthGoesOn(n: nat, m: nat, a: nat, b: nat, longest: nat, canAlloc: nat -> bool)
    requires Grown(n, a + 1, canAlloc) == Capacity(m) && longest == if a >= b then a else b
    ensures Grown(n, longest + 1, canAlloc).Capacity? <==> Grown(m, b + 1, canAlloc).Capacity?
  {
    GrownBoth(n, a + 1, b + 1, canAlloc);
  }

  lemma LongestOf(s: seq<byte>, delim: int, r: seq<byte>, t: seq<byte>)
    requires s != [] && r == Record(s, delim) && t == s[|r|..]
    ensures Longest(s, delim) == if |r| >= Longest(t, delim) then |r| else Longest(t, delim)
    ensures t == [] ==> Longest(s, delim) == |r|
  {
  }

  lemma NothingRead(s: seq<byte>, broken: bool, delim: int, n: nat, canAlloc: nat -> bool)
    requires s != [] && Outcome(s, broken, delim, n, canAlloc) != Ok
    ensures RecordsRead(s, broken, delim, n, canAlloc) == [] != Records(s, delim)
  {
  }

  lemma NotGrown(s: seq<byte>, broken: bool, delim: int, n: nat, canAlloc: nat -> bool, r: seq<byte>, t: seq<byte>)
    requires s != [] && r == Record(s, delim) && t == s[|r|..] && Outcome(s, broken, delim, n, canAlloc) != Ok
    ensures !Fitting(s, broken, delim, n, canAlloc)
  {
    LongestOf(s, delim, r, t);
    NotOkMeans(s, broken, delim, n, canAlloc);
    if !Ends(s, delim) {
      OpenEnd(s, delim);
    }
    ReachesNot(|r|, Ends(s, delim), Longest(s, delim), Closed(s, delim), broken, n, canAlloc);
  }

  lemma ReachesNot(a: nat, ends: bool, longest: nat, closed: bool, broken: bool, n: nat, canAlloc: nat -> bool)
    requires Grown(n, a + 1, canAlloc).Stuck? || (broken && !ends && !closed)
    requires longest >= a
    ensures !Reaches(false, longest, closed, broken, n, canAlloc)
  {
    GrownTwice(n, a + 1, longest + 1, canAlloc);
  }

  lemma OpenEnd(s: seq<byte>, delim: int)
    requires s != [] && !Ends(s, delim)
    ensures !Closed(s, delim)
  {
    RecordClosed(s, delim);
  }

  lemma NotOkMeans(s: seq<byte>, broken: bool, delim: int, n: nat, canAlloc: nat -> bool)
    requires s != [] && Outcome(s, broken, delim, n, canAlloc) != Ok
    ensures Grown(n, |Record(s, delim)| + 1, canAlloc).Stuck? || (broken && !Ends(s, delim))
  {
  }

  lemma TailsAgree(r: seq<byte>, a: seq<seq<byte>>, b: seq<seq<byte>>)
    ensures [r] + a == [r] + b <==> a == b
  {
    assert ([r] + a)[1..] == a && ([r] + b)[1..] == b;
  }

  /** Some records are read, and what is left to read is what reading the rest of the stream gives. */
  predicate Halfway(s: seq<byte>, broken: bool, delim: int, n0: nat, canAlloc: nat -> bool,
                    records: seq<seq<byte>>, rest: seq<byte>, n: nat)
  {
    && RecordsRead(s, broken, delim, n0, canAlloc) == records + RecordsRead(rest, broken, delim, n, canAlloc)
    && LastOutcome(s, broken, delim, n0, canAlloc) == LastOutcome(rest, broken, delim, n, canAlloc)
    && Concat(records) + rest == s
  }

  lemma HalfwayNext(s: seq<byte>, broken: bool, delim: int, n0: nat, canAlloc: nat -> bool,
                    records: seq<seq<byte>>, rest: seq<byte>, n: nat, r: seq<byte>, t: seq<byte>, m: nat)
    requires Halfway(s, broken, delim, n0, canAlloc, records, rest, n) && rest == r + t
    requires RecordsRead(rest, broken, delim, n, canAlloc) == [r] + RecordsRead(t, broken, delim, m, canAlloc)
    requires LastOutcome(rest, broken, delim, n, canAlloc) == LastOutcome(t, broken, delim, m, canAlloc)
    ensures Halfway(s, broken, delim, n0, canAlloc, records + [r], t, m)
  {
    ConcatMore(records, r, t, rest);
    OneFurther(records, r, RecordsRead(t, broken, delim, m, canAlloc));
  }

  lemma OneFurther(a: seq<seq<byte>>, r: seq<byte>, b: seq<seq<byte>>)
    ensures a + ([r] + b) == (a + [r]) + b
  {
  }

  lemma ReadStep(s: seq<byte>, broken: bool, delim: int, n: nat, canAlloc: nat -> bool, r: seq<byte>, t: seq<byte>)
    requires Outcome(s, broken, delim, n, canAlloc) == Ok && r == Record(s, delim) && t == s[|r|..]
    ensures s == r + t
    ensures var m := After(s, delim, n, canAlloc);
      RecordsRead(s, broken, delim, n, canAlloc) == [r] + RecordsRead(t, broken, delim, m, canAlloc)
      && LastOutcome(s, broken, delim, n, canAlloc) == LastOutcome(t, broken, delim, m, canAlloc)
  {
  }

  lemma HalfwayEnds(s: seq<byte>, broken: bool, delim: int, n0: nat, canAlloc: nat -> bool,
                    records: seq<seq<byte>>, rest: seq<byte>, n: nat)
    requires Halfway(s, broken, delim, n0, canAlloc, records, rest, n) && Outcome(rest, broken, delim, n, canAlloc) != Ok
    ensures records == RecordsRead(s, broken, delim, n0, canAlloc)
    ensures Outcome(rest, broken, delim, n, canAlloc) == LastOutcome(s, broken, delim, n0, canAlloc)
    ensures records == Records(s, delim) ==> rest == []
  {
    assert records + [] == records;
    if records == Records(s, delim) {
      RecordsWhole(s, delim);
      NothingLeft(Concat(records), rest, s);
    }
  }

  /** Calls vsc_getdelima with the buffer of the call before, until one does not return a record. */
  method ReadRecords(line0: array?<byte>, n0: nat, delim: int, stream: Stream, canAlloc: nat -> bool)
      returns (records: seq<seq<byte>>, status: Status, line: array?<byte>, n: nat)
    requires line0 != null ==> line0.Length == n0
    modifies line0, stream
    ensures line0 == null && !canAlloc(128) ==> records == [] && status == ENOMEM
    ensures (line0 != null || canAlloc(128)) && old(stream.error) ==> records == [] && status == EndOfFile
    ensures (line0 != null || canAlloc(128)) && !old(stream.error) ==>
      records == RecordsRead(old(stream.rest), old(stream.broken), delim, if line0 == null then 128 else n0, canAlloc)
    ensures (line0 != null || canAlloc(128)) && !old(stream.error) ==>
      status == LastOutcome(old(stream.rest), old(stream.broken), delim, if line0 == null then 128 else n0, canAlloc)
    ensures (line0 != null || canAlloc(128)) && !old(stream.error) && records == Records(old(stream.rest), delim) ==>
      stream.rest == []
  {
    if stream.error || (line0 == null && !canAlloc(128)) {
      ghost var taken;
      var len;
      status, len, line, n, taken := GetDelimA(line0, n0, delim, stream, canAlloc);
      return [], status, line, n;
    }
    records, status, line, n := ReadOn(line0, n0, delim, stream, canAlloc);
  }

  method ReadOn(line0: array?<byte>, n0: nat, delim: int, stream: Stream, canAlloc: nat -> bool)
      returns (records: seq<seq<byte>>, status: Status, line: array?<byte>, n: nat)
    requires !stream.error && (line0 != null ==> line0.Length == n0) && (line0 == null ==> canAlloc(128))
    modifies line0, stream
    ensures records == RecordsRead(old(stream.rest), old(stream.broken), delim, if line0 == null then 128 else n0, canAlloc)
    ensures status == LastOutcome(old(stream.rest), old(stream.broken), delim, if line0 == null then 128 else n0, canAlloc)
    ensures records == Records(old(stream.rest), delim) ==> stream.rest == []
  {
    records, line, n := [], line0, n0;
    ghost var s, broken, m0 := stream.rest, stream.broken, if line0 == null then 128 else n0;
    ghost var m := m0;
    while true
      invariant !stream.error && stream.broken == broken && (line == null ==> canAlloc(128))
      invariant line != null ==> line.Length == n && (line == line0 || fresh(line))
      invariant m == if line == null then 128 else n
      invariant Halfway(s, broken, delim, m0, canAlloc, records, stream.rest, m)
      decreases |stream.rest|
    {
      ghost var rest := stream.rest;
      ghost var taken;
      var len;
      status, len, line, n, taken := GetDelimA(line, n, delim, stream, canAlloc);
      if status != Ok {
        HalfwayEnds(s, broken, delim, m0, canAlloc, records, rest, m);
        return;
      }
      ReadStep(rest, broken, delim, m, canAlloc, Record(rest, delim), stream.rest);
      HalfwayNext(s, broken, delim, m0, canAlloc, records, rest, m, Record(rest, delim), stream.rest, n);
      m := n;
      records := records + [line[..len]];
    }
  }

  lemma NothingLeft(a: seq<byte>, rest: seq<byte>, s: seq<byte>)
    requires a + rest == s && a == s
    ensures rest == []
  {
    assert |a| + |rest| == |s|;
  }

  lemma {:induction false} ConcatAppend(a: seq<seq<byte>>, r: seq<byte>)
    ensures Concat(a + [r]) == Concat(a) + r
  {
    if a == [] {
      assert a + [r] == [r];
    } else {
      assert (a + [r])[1..] == a[1..] + [r];
      ConcatAppend(a[1..], r);
    }
  }

  lemma ConcatMore(a: seq<seq<byte>>, r: seq<byte>, t: seq<byte>, rest: seq<byte>)
    requires rest == r + t
    ensures Concat(a + [r]) + t == Concat(a) + rest
  {
    ConcatAppend(a, r);
  }
}
