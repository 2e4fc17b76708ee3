/**
  The three Python string operations the application relies on, over `string`:
  `s.strip()` with no argument, `s.split("\n")` and `"\n".join(xs)`.
 */
module Text {

  /** Python's `str.isspace()` on one character: the characters of
      bidirectional class WS, B or S, or of general category Zs. */
  predicate IsSpace(c: char) {
    var n := c as int;
    || 0x09 <= n <= 0x0D
    || 0x1C <= n <= 0x20
    || n == 0x85 || n == 0xA0 || n == 0x1680
    || 0x2000 <= n <= 0x200A
    || n == 0x2028 || n == 0x2029 || n == 0x202F || n == 0x205F || n == 0x3000
  }

  predicate AllSpace(s: string) {
    forall k :: 0 <= k < |s| ==> IsSpace(s[k])
  }

  lemma AllSpaceConcat(a: string, b: string)
    ensures AllSpace(a + b) <==> AllSpace(a) && AllSpace(b)
  {
    if AllSpace(a) && AllSpace(b) {
      forall k | 0 <= k < |a + b| ensures IsSpace((a + b)[k]) {
        if k >= |a| { assert (a + b)[k] == b[k - |a|]; }
      }
    }
    if AllSpace(a + b) {
      forall k | 0 <= k < |a| ensures IsSpace(a[k]) {
        assert (a + b)[k] == a[k];
      }
      forall k | 0 <= k < |b| ensures IsSpace(b[k]) {
        assert (a + b)[|a| + k] == b[k];
      }
    }
  }

  /** Neither end of `s` is whitespace: the shape of everything `strip()` returns. */
  predicate Stripped(s: string) {
    s == [] || (!IsSpace(s[0]) && !IsSpace(s[|s| - 1]))
  }

  /** Drops the leading whitespace. */
  function TrimLeft(s: string): string {
    if s != [] && IsSpace(s[0]) then TrimLeft(s[1..]) else s
  }

  /** Drops the trailing whitespace. */
  function TrimRight(s: string): string {
    if s != [] && IsSpace(s[|s| - 1]) then TrimRight(s[..|s| - 1]) else s
  }

  /** What `TrimLeft` leaves is a suffix of `s` that does not start with
      whitespace, and what it drops is all whitespace. */
  lemma {:induction false} TrimLeftShape(s: string)
    ensures |TrimLeft(s)| <= |s| && TrimLeft(s) == s[|s| - |TrimLeft(s)|..]
    ensures AllSpace(s[..|s| - |TrimLeft(s)|])
    ensures TrimLeft(s) == [] || !IsSpace(TrimLeft(s)[0])
  {
    if s != [] && IsSpace(s[0]) {
      var r := TrimLeft(s[1..]);
      TrimLeftShape(s[1..]);
      assert s[..|s| - |r|] == [s[0]] + s[1..][..|s| - 1 - |r|];
    }
  }

  /** What `TrimRight` leaves is a prefix of `s` that does not end with
      whitespace, and what it drops is all whitespace. */
  lemma {:induction false} TrimRightShape(s: string)
    ensures |TrimRight(s)| <= |s| && TrimRight(s) == s[..|TrimRight(s)|]
    ensures AllSpace(s[|TrimRight(s)|..])
    ensures TrimRight(s) == [] || !IsSpace(TrimRight(s)[|TrimRight(s)| - 1])
  {
    if s != [] && IsSpace(s[|s| - 1]) {
      var r := TrimRight(s[..|s| - 1]);
      TrimRightShape(s[..|s| - 1]);
      assert s[|r|..] == s[..|s| - 1][|r|..] + [s[|s| - 1]];
    }
  }

  /** Python's `s.strip()`. */
  function Strip(s: string): string {
    TrimRight(TrimLeft(s))
  }

  /** What `strip()` returns: a piece of `s` with no whitespace at either
      end, empty exactly when `s` is all whitespace, which is when Python
      treats `s.strip()` as false. */
  lemma StripShape(s: string)
    ensures Stripped(Strip(s))
    ensures Strip(s) == [] <==> AllSpace(s)
    ensures forall c :: c in Strip(s) ==> c in s
  {
    var t := TrimLeft(s);
    var r := TrimRight(t);
    TrimLeftShape(s);
    TrimRightShape(t);
    var i := |s| - |t|;
    assert forall k :: 0 <= k < |r| ==> r[k] == s[i + k];
    if r == [] {
      assert t[|r|..] == t;
      assert s == s[..i] + t;
      AllSpaceConcat(s[..i], t);
    }
    if t != [] {
      assert t[0] == s[i];
    }
  }

  /** `s` is blank: Python's condition `if s.strip()` is false. */
  predicate IsBlank(s: string) {
    Strip(s) == []
  }

  /** `[s for s in xs if s.strip()]`: the entries that are not blank, each
      unchanged, in their original order. */
  function NonBlank(xs: seq<string>): (r: seq<string>)
    ensures |r| <= |xs|
    ensures forall k :: 0 <= k < |r| ==> !IsBlank(r[k])
  {
    if xs == [] then []
    else (if IsBlank(xs[0]) then [] else [xs[0]]) + NonBlank(xs[1..])
  }

  /** The filter keeps an entry exactly when it is in the list and not blank. */
  lemma {:induction false} NonBlankMembers(xs: seq<string>, x: string)
    ensures x in NonBlank(xs) <==> x in xs && !IsBlank(x)
  {
    if xs != [] {
      NonBlankMembers(xs[1..], x);
      assert xs == [xs[0]] + xs[1..];
    }
  }

  /** The filter distributes over concatenation, so together with its value
      on a single entry it fixes both the order and the multiplicity of what
      it keeps. */
  lemma {:induction false} NonBlankAppend(a: seq<string>, b: seq<string>)
    ensures NonBlank(a + b) == NonBlank(a) + NonBlank(b)
    decreases |a|
  {
    if a == [] {
      assert a + b == b;
    } else {
      assert (a + b)[1..] == a[1..] + b;
      NonBlankAppend(a[1..], b);
    }
  }

  /** Filtering twice keeps what filtering once kept. */
  lemma {:induction false} NonBlankIdempotent(xs: seq<string>)
    ensures NonBlank(NonBlank(xs)) == NonBlank(xs)
  {
    if xs != [] {
      var head := if IsBlank(xs[0]) then [] else [xs[0]];
      NonBlankIdempotent(xs[1..]);
      NonBlankAppend(head, NonBlank(xs[1..]));
      if head != [] {
        assert head[1..] == [];
      }
    }
  }

  lemma {:induction false} TrimLeftSkipsSpace(p: string, t: string)
    requires AllSpace(p)
    requires t == [] || !IsSpace(t[0])
    ensures TrimLeft(p + t) == t
    decreases |p|
  {
    if p == [] {
      assert p + t == t;
    } else {
      assert (p + t)[1..] == p[1..] + t;
      TrimLeftSkipsSpace(p[1..], t);
    }
  }

  lemma {:induction false} TrimRightSkipsSpace(t: string, q: string)
    requires AllSpace(q)
    requires t == [] || !IsSpace(t[|t| - 1])
    ensures TrimRight(t + q) == t
    decreases |q|
  {
    if q == [] {
      assert t + q == t;
    } else {
      assert (t + q)[..|t + q| - 1] == t + q[..|q| - 1];
      TrimRightSkipsSpace(t, q[..|q| - 1]);
    }
  }

  /** `strip()` removes exactly the whitespace run at each end: whenever `s`
      is whitespace, then a piece with non-space ends, then whitespace, the
      piece is what `strip()` returns. */
  lemma StripExact(p: string, r: string, q: string)
    requires AllSpace(p) && AllSpace(q) && Stripped(r)
    ensures Strip(p + r + q) == r
  {
    if r == [] {
      assert p + r + q == p + q;
      AllSpaceConcat(p, q);
      StripShape(p + r + q);
    } else {
      TrimLeftSkipsSpace(p, r + q);
      assert p + r + q == p + (r + q);
      TrimRightSkipsSpace(r, q);
    }
  }

  /** `strip()` leaves an already stripped string alone, so it is idempotent. */
  lemma StripFixesStripped(s: string)
    requires Stripped(s)
    ensures Strip(s) == s
  {
    StripExact([], s, []);
    assert [] + s + [] == s;
  }

  lemma StripIdempotent(s: string)
    ensures Strip(Strip(s)) == Strip(s)
  {
    StripShape(s);
    StripFixesStripped(Strip(s));
  }

  /** Python's `s.split("\n")`: the pieces between newline characters, in
      order; there is always at least one, and no piece holds a newline. */
  function Lines(s: string): (ls: seq<string>)
    ensures |ls| >= 1
    ensures forall k :: 0 <= k < |ls| ==> '\n' !in ls[k]
  {
    if s == [] then [[]]
    else
      var rest := Lines(s[1..]);
      if s[0] == '\n' then [[]] + rest
      else [[s[0]] + rest[0]] + rest[1..]
  }

  /** There is one more piece than there are newlines. */
  lemma {:induction false} LinesCount(s: string)
    ensures |Lines(s)| == multiset(s)['\n'] + 1
  {
    if s != [] {
      LinesCount(s[1..]);
      assert s == [s[0]] + s[1..];
    }
  }

  /** Python's `"\n".join(xs)`. */
  function JoinLines(xs: seq<string>): string {
    if |xs| == 0 then []
    else if |xs| == 1 then xs[0]
    else xs[0] + "\n" + JoinLines(xs[1..])
  }

  /** Prepending a character to the first line prepends it to the join. */
  lemma JoinConsHead(c: char, x: string, rest: seq<string>)
    ensures JoinLines([[c] + x] + rest) == [c] + JoinLines([x] + rest)
  {
    var ys := [[c] + x] + rest;
    var xs := [x] + rest;
    assert ys[1..] == rest && xs[1..] == rest;
    if rest != [] {
      var tail := "\n" + JoinLines(rest);
      assert JoinLines(ys) == ([c] + x) + tail;
      assert JoinLines(xs) == x + tail;
      assert ([c] + x) + tail == [c] + (x + tail);
    }
  }

  /** Joining the pieces of a split with `"\n"` gives back the original text. */
  lemma {:induction false} JoinLinesOfLines(s: string)
    ensures JoinLines(Lines(s)) == s
  {
    if s != [] {
      var rest := Lines(s[1..]);
      JoinLinesOfLines(s[1..]);
      if s[0] == '\n' {
        assert ([[]] + rest)[1..] == rest;
        assert s == "\n" + s[1..];
      } else {
        JoinConsHead(s[0], rest[0], rest[1..]);
        assert rest == [rest[0]] + rest[1..];
        assert s == [s[0]] + s[1..];
      }
    }
  }

  /** Splitting distributes over a newline: the pieces of `a + "\n" + b` are
      the pieces of `a` followed by the pieces of `b`. */
  lemma {:induction false} LinesAround(a: string, b: string)
    ensures Lines(a + "\n" + b) == Lines(a) + Lines(b)
    decreases |a|
  {
    var s := a + "\n" + b;
    if a == [] {
      assert s[1..] == b;
    } else {
      assert s[1..] == a[1..] + "\n" + b;
      LinesAround(a[1..], b);
    }
  }

  /** A string without a newline is its own single piece. */
  lemma LinesOfLine(x: string)
    requires '\n' !in x
    ensures Lines(x) == [x]
  {
    LinesCount(x);
    assert multiset(x)['\n'] == 0;
    JoinLinesOfLines(x);
  }

  /** Splitting undoes joining, for a non-empty list of newline-free lines. */
  lemma {:induction false} LinesOfJoinLines(xs: seq<string>)
    requires |xs| >= 1
    requires forall k :: 0 <= k < |xs| ==> '\n' !in xs[k]
    ensures Lines(JoinLines(xs)) == xs
  {
    LinesOfLine(xs[0]);
    if |xs| > 1 {
      LinesOfJoinLines(xs[1..]);
      LinesAround(xs[0], JoinLines(xs[1..]));
      assert xs == [xs[0]] + xs[1..];
    }
  }

  /** Joining never merges lines: each joined text contributes at least one. */
  lemma {:induction false} JoinLinesKeepsLines(xs: seq<string>)
    ensures |Lines(JoinLines(xs))| >= |xs|
  {
    if |xs| > 1 {
      JoinLinesKeepsLines(xs[1..]);
      LinesAround(xs[0], JoinLines(xs[1..]));
    }
  }

  /** The pieces of each text of `xs`, one text after another. */
  function LinesOfEach(xs: seq<string>): (ls: seq<string>)
    ensures |ls| >= |xs|
  {
    if xs == [] then [] else Lines(xs[0]) + LinesOfEach(xs[1..])
  }

  /** Splitting a join gives the pieces of every joined text, in order: the
      separators start new lines and nothing else does. */
  lemma {:induction false} LinesOfJoinLinesEach(xs: seq<string>)
    requires |xs| >= 1
    ensures Lines(JoinLines(xs)) == LinesOfEach(xs)
  {
    if |xs| == 1 {
      assert xs[1..] == [];
    } else {
      LinesOfJoinLinesEach(xs[1..]);
      LinesAround(xs[0], JoinLines(xs[1..]));
    }
  }
}
