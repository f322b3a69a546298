/** Splitting a string at a delimiter and joining strings with one. */
module DelimText {
  import opened Machine

  // ----- pieces

  /** The position of the first d in s, or the length of s. */
  function Find(s: string, d: char): (i: nat)
    ensures i <= |s| && d !in s[..i]
    ensures i < |s| ==> s[i] == d
  {
    if s == [] || s[0] == d then 0 else 1 + Find(s[1..], d)
  }

  /** All pieces of s between its delimiters, one more than there are delimiters. */
  function Split(s: string, d: char): (l: seq<string>)
    ensures |l| >= 1
    decreases |s|
  {
    var i := Find(s, d);
    if i == |s| then [s] else [s[..i]] + Split(s[i + 1..], d)
  }

  /** What the callback of vsc_for_each_delim is to see. */
  function Pieces(s: string, d: char): seq<string> {
    if s == [] then [] else Split(s, d)
  }

  function Join(l: seq<string>, delim: string): (r: string) {
    if |l| == 0 then ""
    else if |l| == 1 then l[0]
    else l[0] + delim + Join(l[1..], delim)
  }

  // ----- joining what was split

  lemma {:induction false} JoinSplit(s: string, d: char)
    ensures Join(Split(s, d), [d]) == s
    decreases |s|
  {
    var i := Find(s, d);
    if i < |s| {
      JoinSplit(s[i + 1..], d);
      assert Split(s, d)[1..] == Split(s[i + 1..], d);
      assert s == s[..i] + [d] + s[i + 1..];
    }
  }

  /** Joining the pieces of any string with the delimiter restores it. */
  lemma JoinPieces(s: string, d: char)
    ensures Join(Pieces(s, d), [d]) == s
  {
    JoinSplit(s, d);
  }

  // ----- splitting what was joined

  predicate Free(l: seq<string>, d: char) {
    forall k | 0 <= k < |l| :: d !in l[k]
  }

  lemma FindAfter(a: string, rest: string, d: char)
    requires d !in a
    ensures rest == [] ==> Find(a + rest, d) == |a|
    ensures rest != [] && rest[0] == d ==> Find(a + rest, d) == |a|
    decreases |a|
  {
    if a == [] {
      assert a + rest == rest;
    } else {
      assert (a + rest)[1..] == a[1..] + rest;
      FindAfter(a[1..], rest, d);
    }
  }

  lemma {:induction false} SplitJoin(l: seq<string>, d: char)
    requires |l| >= 1 && Free(l, d)
    ensures Split(Join(l, [d]), d) == l
    decreases |l|
  {
    if |l| == 1 {
      FindAfter(l[0], [], d);
      assert l[0] + [] == l[0];
    } else {
      var rest := [d] + Join(l[1..], [d]);
      var s := l[0] + rest;
      FindAfter(l[0], rest, d);
      assert Join(l, [d]) == s;
      assert s[|l[0]| + 1..] == Join(l[1..], [d]) && s[..|l[0]|] == l[0];
      SplitJoin(l[1..], d);
    }
  }

  lemma {:induction false} SplitFree(s: string, d: char)
    ensures Free(Split(s, d), d)
    decreases |s|
  {
    var i := Find(s, d);
    if i < |s| {
      SplitFree(s[i + 1..], d);
      var l := Split(s, d);
      forall k | 0 <= k < |l| ensures d !in l[k] {
        if k > 0 {
          assert l[k] == Split(s[i + 1..], d)[k - 1];
        }
      }
    }
  }

  lemma JoinEmpty(l: seq<string>, d: char)
    requires Join(l, [d]) == ""
    ensures l == [] || l == [""]
  {
    if |l| > 1 {
      JoinLonger(l, d);
    }
  }

  lemma JoinLonger(l: seq<string>, d: char)
    requires |l| > 1
    ensures |Join(l, [d])| >= 1
  {
  }

  /** Splitting a join gives the list back exactly when no element has the delimiter and it is not the one empty string. */
  lemma PiecesJoinExact(l: seq<string>, d: char)
    ensures Pieces(Join(l, [d]), d) == l <==> Free(l, d) && l != [""]
  {
    if Free(l, d) && l != [""] {
      if l != [] {
        JoinEmptyOnly(l, d);
        SplitJoin(l, d);
      }
    }
    if Pieces(Join(l, [d]), d) == l {
      SplitFree(Join(l, [d]), d);
    }
  }

  lemma JoinEmptyOnly(l: seq<string>, d: char)
    requires l != [] && l != [""]
    ensures Join(l, [d]) != ""
  {
    if Join(l, [d]) == "" {
      JoinEmpty(l, d);
    }
  }

  // ----- examples

  /** Empty pieces in front, between and behind; no piece in nothing. */
  lemma PiecesExamples()
    ensures Pieces("a,b,,c", ',') == ["a", "b", "", "c"] && Pieces("", ',') == []
  {
    SplitJoin(["a", "b", "", "c"], ',');
    assert Join(["a", "b", "", "c"], [',']) == "a,b,,c";
  }

  lemma PiecesAtEnds()
    ensures Pieces(",b,", ',') == ["", "b", ""] && Pieces(",", ',') == ["", ""]
  {
    SplitJoin(["", "b", ""], ',');
    assert Join(["", "b", ""], [',']) == ",b,";
    SplitJoin(["", ""], ',');
    assert Join(["", ""], [',']) == ",";
  }

  /** The delimiter stands between elements, empty ones too, and nowhere else. */
  lemma JoinExamples()
    ensures Join(["a", "", "b"], "--") == "a----b" && Join(["x"], "--") == "x" && Join([], "--") == ""
  {
  }

  // ----- vsc_for_each_delim

  /** How a walk ends: a bad range, the first nonzero answer of the callback, or 0 after the last piece. */
  datatype Walk = BadRange | Answer(code: int)

  /** The callback's answer to the last of the pieces it has been given. */
  type Callback = seq<string> -> int

  /** The callback answered 0 to each of the first n pieces. */
  ghost predicate Quiet(proc: Callback, seen: seq<string>, n: nat) {
    n <= |seen| && forall k | 0 < k <= n :: proc(seen[..k]) == 0
  }

  /** All pieces are seen up to the first for which the callback answers nonzero. */
  ghost predicate Walked(pieces: seq<string>, proc: Callback, seen: seq<string>, code: int) {
    && seen <= pieces
    && (code == 0 ==> seen == pieces && Quiet(proc, seen, |seen|))
    && (code != 0 ==> seen != [] && Quiet(proc, seen, |seen| - 1) && proc(seen) == code)
  }

  lemma QuietNext(proc: Callback, seen: seq<string>, x: string)
    requires Quiet(proc, seen, |seen|)
    ensures Quiet(proc, seen + [x], |seen|)
    ensures proc(seen + [x]) == 0 ==> Quiet(proc, seen + [x], |seen| + 1)
  {
    var l := seen + [x];
    forall k | 0 < k <= |seen| ensures proc(l[..k]) == 0 {
      assert l[..k] == seen[..k];
    }
    assert l[..|l|] == l;
  }

  /** The loop stands before the pieces left: what is seen and what is left are all pieces, and nothing has stopped it. */
  ghost predicate Midway(pieces: seq<string>, proc: Callback, seen: seq<string>, left: seq<string>) {
    pieces == seen + left && Quiet(proc, seen, |seen|)
  }

  /** One more piece. */
  lemma OneSeen(pieces: seq<string>, proc: Callback, seen: seq<string>, x: string, left: seq<string>)
    requires Midway(pieces, proc, seen, [x] + left)
    ensures proc(seen + [x]) != 0 ==> Walked(pieces, proc, seen + [x], proc(seen + [x]))
    ensures proc(seen + [x]) == 0 ==> Midway(pieces, proc, seen + [x], left)
  {
    QuietNext(proc, seen, x);
    assert seen + ([x] + left) == (seen + [x]) + left;
  }

  /** All pieces are seen. */
  lemma AllSeen(pieces: seq<string>, proc: Callback, seen: seq<string>)
    requires Midway(pieces, proc, seen, [])
    ensures Walked(pieces, proc, seen, 0)
  {
    assert seen + [] == seen;
  }

  /** memchr: the first d in text from start on, or end. */
  function MemChr(text: string, start: nat, end: nat, d: char): (next: nat)
    requires start <= end <= |text|
    ensures start <= next <= end
    decreases end - start, text
  {
    if start == end || text[start] == d then start else MemChr(text, start + 1, end, d)
  }

  /** The pieces left when the loop stands at start. */
  function LeftIn(text: string, begin: nat, end: nat, start: nat, d: char): seq<string>
    requires begin <= start <= end <= |text|
    decreases end - start, text
  {
    if start == end then if begin < end && text[end - 1] == d then [""] else []
    else
      var next := MemChr(text, start, end, d);
      [text[start..next]] + LeftIn(text, begin, end, if next != end then next + 1 else end, d)
  }

  lemma {:induction false} MemChrFinds(text: string, start: nat, end: nat, d: char)
    requires start <= end <= |text|
    ensures MemChr(text, start, end, d) == start + Find(text[start..end], d)
    decreases end - start
  {
    if start < end && text[start] != d {
      assert text[start..end][1..] == text[start + 1..end];
      MemChrFinds(text, start + 1, end, d);
    }
  }

  lemma Cut(text: string, start: nat, end: nat, next: nat)
    requires start <= next <= end <= |text|
    ensures text[start..end][..next - start] == text[start..next]
    ensures next < end ==> text[start..end][next - start + 1..] == text[next + 1..end]
    ensures next < end ==> text[start..end][next - start] == text[next]
  {
  }

  lemma SplitAt(t: string, d: char, i: nat, left: string, right: string)
    requires i == Find(t, d) < |t| && left == t[..i] && right == t[i + 1..]
    ensures Split(t, d) == [left] + Split(right, d)
  {
  }

  lemma SplitEmpty(d: char)
    ensures Split("", d) == [""]
  {
  }

  /** Short of the end, what is left are the pieces of the rest. */
  lemma {:induction false} LeftInIsSplit(text: string, begin: nat, end: nat, start: nat, d: char)
    requires begin <= start < end <= |text|
    ensures LeftIn(text, begin, end, start, d) == Split(text[start..end], d)
    decreases end - start
  {
    var next, t := MemChr(text, start, end, d), text[start..end];
    MemChrFinds(text, start, end, d);
    Cut(text, start, end, next);
    if next == end {
      NoneAtEnd(t, d);
      assert t[|t| - 1] == text[end - 1];
    } else {
      SplitAt(t, d, next - start, text[start..next], text[next + 1..end]);
      if next + 1 < end {
        LeftInIsSplit(text, begin, end, next + 1, d);
      } else {
        SplitEmpty(d);
      }
    }
  }

  lemma NoneAtEnd(t: string, d: char)
    requires t != [] && Find(t, d) == |t|
    ensures t[|t| - 1] != d && Split(t, d) == [t]
  {
    assert t[..|t|] == t && t[|t| - 1] in t;
  }

  lemma LeftFirst(text: string, begin: nat, end: nat, d: char)
    requires begin <= end <= |text|
    ensures LeftIn(text, begin, end, begin, d) == Pieces(text[begin..end], d)
  {
    if begin < end {
      LeftInIsSplit(text, begin, end, begin, d);
    }
  }

  /** The walk from begin to end, which is a range. */
  method Visit(text: string, begin: nat, end: nat, d: char, proc: Callback, ghost pieces: seq<string>)
      returns (code: int, seen: seq<string>)
    requires begin <= end <= |text| && pieces == LeftIn(text, begin, end, begin, d)
    ensures Walked(pieces, proc, seen, code)
  {
    seen := [];
    var start := begin;
    while start != end
      invariant begin <= start <= end && Midway(pieces, proc, seen, LeftIn(text, begin, end, start, d))
      decreases end - start
    {
      var next := MemChr(text, start, end, d);
      OneSeen(pieces, proc, seen, text[start..next], LeftIn(text, begin, end, if next != end then next + 1 else end, d));
      seen := seen + [text[start..next]];
      var r := proc(seen);
      if r != 0 {
        return r, seen;
      }
      if next != end {
        next := next + 1;
      }
      start := next;
    }
    if begin < end && text[end - 1] == d {
      OneSeen(pieces, proc, seen, "", []);
      seen := seen + [text[start..end]];
      if proc(seen) == 0 {
        AllSeen(pieces, proc, seen);
      }
      return proc(seen), seen;
    }
    AllSeen(pieces, proc, seen);
    code := 0;
  }

  /** vsc_for_each_delim on the characters from begin to end. */
  method ForEachDelim(text: string, begin: nat, end: nat, d: char, proc: Callback) returns (w: Walk, seen: seq<string>)
    requires begin <= |text| && end <= |text|
    ensures w == BadRange <==> begin > end
    ensures begin > end ==> seen == []
    ensures begin <= end ==> Walked(Pieces(text[begin..end], d), proc, seen, w.code)
  {
    if begin > end {
      return BadRange, [];
    }
    LeftFirst(text, begin, end, d);
    var code;
    code, seen := Visit(text, begin, end, d, proc, Pieces(text[begin..end], d));
    w := Answer(code);
  }

  // ----- vsc_strnjoina

  /** The length of a join. */
  function Total(l: seq<string>): nat {
    if l == [] then 0 else Total(l[..|l| - 1]) + |l[|l| - 1]|
  }

  /** The text written once n elements are written: each but the last of all is followed by the delimiter. */
  function Written(l: seq<string>, delim: string, n: nat): string
    requires n <= |l|
  {
    if n == 0 then ""
    else Written(l, delim, n - 1) + l[n - 1] + (if n - 1 != |l| - 1 then delim else "")
  }

  lemma {:induction false} WrittenTail(l: seq<string>, delim: string, n: nat)
    requires 1 <= n <= |l| && |l| >= 2
    ensures Written(l, delim, n) == l[0] + delim + Written(l[1..], delim, n - 1)
    decreases n
  {
    if n == 1 {
      assert Written(l, delim, 0) == "";
    } else {
      WrittenTail(l, delim, n - 1);
      assert l[1..][n - 2] == l[n - 1];
    }
  }

  lemma {:induction false} WrittenIsJoin(l: seq<string>, delim: string)
    ensures Written(l, delim, |l|) == Join(l, delim)
    decreases |l|
  {
    if |l| == 1 {
      assert Written(l, delim, 0) == "";
    } else if |l| >= 2 {
      WrittenTail(l, delim, |l|);
      WrittenIsJoin(l[1..], delim);
    }
  }

  lemma {:induction false} WrittenLength(l: seq<string>, delim: string, n: nat)
    requires n <= |l|
    ensures |Written(l, delim, n)| == Total(l[..n]) + (if n < |l| then n else if n > 0 then n - 1 else 0) * |delim|
    decreases n
  {
    if n > 0 {
      WrittenLength(l, delim, n - 1);
      assert l[..n][..n - 1] == l[..n - 1];
      assert n * |delim| == (n - 1) * |delim| + |delim|;
    }
  }

  /** The size the first pass computes is that of the join. */
  lemma JoinSize(l: seq<string>, delim: string)
    ensures |Join(l, delim)| == Total(l) + (if |l| > 0 then (|l| - 1) * |delim| else 0)
  {
    WrittenLength(l, delim, |l|);
    WrittenIsJoin(l, delim);
    assert l[..|l|] == l;
  }

  lemma {:induction false} WrittenGrows(l: seq<string>, delim: string, n: nat, m: nat)
    requires n <= m <= |l|
    ensures |Written(l, delim, n)| <= |Written(l, delim, m)|
    decreases m
  {
    if n < m {
      WrittenGrows(l, delim, n, m - 1);
    }
  }

  /** The strings behind the pointers; NULL reads as nothing. */
  function Values(elems: seq<Option<string>>): (l: seq<string>)
    ensures |l| == |elems|
  {
    seq(|elems|, i requires 0 <= i < |elems| => if elems[i].Some? then elems[i].value else "")
  }

  /** vsc_stpcpy: copies s and a terminator to position at, and returns where the terminator is. */
  method StpCpy(dst: array<char>, at: nat, s: string) returns (next: nat)
    requires at + |s| < dst.Length
    modifies dst
    ensures next == at + |s|
    ensures dst[..next] == old(dst[..at]) + s && dst[next] == '\0'
  {
    for i := 0 to |s|
      invariant dst[..at + i] == old(dst[..at]) + s[..i]
    {
      dst[at + i] := s[i];
    }
    assert s[..|s|] == s;
    next := at + |s|;
    dst[next] := '\0';
  }

  /** The sizing pass: the lengths of all elements, or nothing when one is NULL. */
  method Measure(elems: seq<Option<string>>) returns (size: Option<nat>)
    ensures size.None? <==> None in elems
    ensures size.Some? ==> size.value == Total(Values(elems))
  {
    var nreq := 0;
    for i := 0 to |elems|
      invariant None !in elems[..i]
      invariant nreq == Total(Values(elems)[..i])
    {
      if elems[i].None? {
        return None;
      }
      assert Values(elems)[..i + 1][..i] == Values(elems)[..i];
      nreq := nreq + |elems[i].value|;
    }
    assert Values(elems)[..|elems|] == Values(elems);
    size := Some(nreq);
  }

  /** The buffer after n elements: their text, and a terminator behind it. */
  predicate Holds(buf: seq<char>, l: seq<string>, delim: string, n: nat, next: nat) {
    && n <= |l| && next == |Written(l, delim, n)| < |buf|
    && buf[..next] == Written(l, delim, n) && buf[next] == '\0'
  }

  /** The writing pass. */
  method WriteAll(val: array<char>, l: seq<string>, delim: string)
    requires val.Length == |Written(l, delim, |l|)| + 1 && val[0] == '\0'
    modifies val
    ensures Holds(val[..], l, delim, |l|, val.Length - 1)
  {
    var next := 0;
    for i := 0 to |l|
      invariant Holds(val[..], l, delim, i, next)
    {
      WrittenGrows(l, delim, i + 1, |l|);
      next := StpCpy(val, next, l[i]);
      if i != |l| - 1 {
        next := StpCpy(val, next, delim);
      }
    }
  }

  /** vsc_strnjoina. The code does not check its sums; they fit a size_t when the result does. */
  method StrNJoin(delim: Option<string>, elems: seq<Option<string>>, canAlloc: nat -> bool) returns (val: array?<char>)
    requires delim.Some? && None !in elems ==> |Join(Values(elems), delim.value)| + 1 <= SIZE_MAX
    ensures val != null <==> delim.Some? && None !in elems && canAlloc(|Join(Values(elems), delim.value)| + 1)
    ensures val != null ==> fresh(val) && val[..] == Join(Values(elems), delim.value) + ['\0']
  {
    if delim.None? {
      return null;
    }
    var size := Measure(elems);
    if size.None? {
      return null;
    }
    JoinSize(Values(elems), delim.value);
    WrittenIsJoin(Values(elems), delim.value);
    var nreq := size.value;
    if |elems| > 0 {
      nreq := nreq + (|elems| - 1) * |delim.value|;
    }
    nreq := nreq + 1;
    assert nreq <= SIZE_MAX;
    if !canAlloc(nreq) {
      return null;
    }
    var buf := new char[nreq](i => '\0');
    WriteAll(buf, Values(elems), delim.value);
    assert buf[..] == buf[..nreq - 1] + [buf[nreq - 1]];
    val := buf;
  }
}
