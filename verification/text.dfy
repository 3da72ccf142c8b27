/** Character classes and the few `str` operations the parsers rely on:
    `str.strip()`, `str.split('\n')`, `str.startswith` and the regular
    expression classes `\s`, `\d` and `.`. Positions are indices into the
    whole string, the way a regular expression engine sees its subject. */
module Text {

  /** Python's `str.isspace()`, which is also what `\s` matches in a `str`
      pattern: ASCII tab to carriage return, the four information
      separators, space, NEL, no-break space and the Unicode space
      separators and line/paragraph separators. */
  predicate IsSpace(c: char) {
    || c == ' '
    || ('\t' <= c <= '\r')
    || ('\U{1C}' <= c <= '\U{1F}')
    || c == '\U{85}'
    || c == '\U{A0}'
    || c == '\U{1680}'
    || ('\U{2000}' <= c <= '\U{200A}')
    || c == '\U{2028}'
    || c == '\U{2029}'
    || c == '\U{202F}'
    || c == '\U{205F}'
    || c == '\U{3000}'
  }

  /** `\d`, restricted to the ASCII digits. */
  predicate IsDigit(c: char) {
    '0' <= c <= '9'
  }

  /** `s[k]` is white space. Facts about runs of characters are stated
      through these position predicates rather than through `s[k]`, so
      that each fact is only used at the positions it is asked about. */
  predicate SpaceAt(s: string, k: nat)
    requires k < |s|
  {
    IsSpace(s[k])
  }

  predicate DigitAt(s: string, k: nat)
    requires k < |s|
  {
    IsDigit(s[k])
  }

  predicate BreakAt(s: string, k: nat)
    requires k < |s|
  {
    s[k] == '\n'
  }

  /** Every character of `s[i..j]` is white space. */
  predicate SpacesIn(s: string, i: nat, j: nat)
    requires i <= j <= |s|
  {
    forall k | i <= k < j :: SpaceAt(s, k)
  }

  /** Every character of `s[i..j]` is a digit. */
  predicate DigitsIn(s: string, i: nat, j: nat)
    requires i <= j <= |s|
  {
    forall k | i <= k < j :: DigitAt(s, k)
  }

  /** No character of `s[i..j]` is a line break: `.` matches all of it. */
  predicate NoBreakIn(s: string, i: nat, j: nat)
    requires i <= j <= |s|
  {
    forall k | i <= k < j :: !BreakAt(s, k)
  }

  predicate AllSpace(s: string) {
    SpacesIn(s, 0, |s|)
  }

  /** Neither end of `s` is white space: what `strip()` returns. */
  predicate Trimmed(s: string) {
    |s| == 0 || (!SpaceAt(s, 0) && !SpaceAt(s, |s| - 1))
  }

  /** The end of the run of white space starting at `i` (greedy `\s*`). */
  function SkipSpaces(s: string, i: nat): (j: nat)
    requires i <= |s|
    ensures i <= j <= |s| && SpacesIn(s, i, j)
    ensures j == |s| || !SpaceAt(s, j)
    decreases |s| - i
  {
    if i < |s| && SpaceAt(s, i) then SkipSpaces(s, i + 1) else i
  }

  /** The end of the run of digits starting at `i` (greedy `\d*`). */
  function SkipDigits(s: string, i: nat): (j: nat)
    requires i <= |s|
    ensures i <= j <= |s| && DigitsIn(s, i, j)
    ensures j == |s| || !DigitAt(s, j)
    decreases |s| - i
  {
    if i < |s| && DigitAt(s, i) then SkipDigits(s, i + 1) else i
  }

  /** The start of the run of white space that ends at `j`. */
  function TrailStart(s: string, j: nat): (k: nat)
    requires j <= |s|
    ensures k <= j && SpacesIn(s, k, j)
    ensures k == 0 || !SpaceAt(s, k - 1)
    decreases j
  {
    if j > 0 && SpaceAt(s, j - 1) then TrailStart(s, j - 1) else j
  }

  /** `str.strip()` with no argument. */
  function Strip(s: string): (r: string)
    ensures Trimmed(r)
    ensures r == [] <==> AllSpace(s)
    ensures |r| <= |s|
  {
    var a := SkipSpaces(s, 0);
    var b := TrailStart(s, |s|);
    if a < b then
      s[a..b]
    else
      // The leading run reaches the end: a character that stopped it
      // would lie in the trailing run.
      assert a == |s| by {
        if a < |s| {
          assert false;
        }
      }
      []
  }

  /** In `p + m + q` with `p` and `q` white space, the characters
      before and after `m` are white space. */
  lemma FrameSpaces(p: string, m: string, q: string)
    requires AllSpace(p) && AllSpace(q)
    ensures var s := p + m + q;
      SpacesIn(s, 0, |p|) && SpacesIn(s, |p| + |m|, |s|)
  {
    var s := p + m + q;
    forall k | 0 <= k < |p| ensures SpaceAt(s, k) {
      assert s[k] == p[k] && SpaceAt(p, k);
    }
    forall k | |p| + |m| <= k < |s| ensures SpaceAt(s, k) {
      assert s[k] == q[k - |p| - |m|] && SpaceAt(q, k - |p| - |m|);
    }
  }

  /** `strip()` removes exactly the white space around a trimmed core. */
  lemma StripFrame(p: string, m: string, q: string)
    requires AllSpace(p) && AllSpace(q) && Trimmed(m)
    ensures Strip(p + m + q) == m
  {
    var s := p + m + q;
    if m == [] {
      assert s == p + q;
      AllSpaceConcat(p, q);
    } else {
      FrameSpaces(p, m, q);
      assert s[|p|] == m[0];
      assert s[|p| + |m| - 1] == m[|m| - 1];
      SkipSpacesStops(s, 0, |p|);
      TrailStartStops(s, |p| + |m|, |s|);
      assert s[|p|..|p| + |m|] == m;
    }
  }

  /** White space followed by white space is white space. */
  lemma AllSpaceConcat(x: string, y: string)
    requires AllSpace(x) && AllSpace(y)
    ensures AllSpace(x + y)
  {
    var xy := x + y;
    forall k | 0 <= k < |xy| ensures SpaceAt(xy, k) {
      if k < |x| {
        assert xy[k] == x[k] && SpaceAt(x, k);
      } else {
        assert xy[k] == y[k - |x|] && SpaceAt(y, k - |x|);
      }
    }
  }

  /** A run of white space, cut out, is all white space. */
  lemma SpacesInAll(s: string, i: nat, j: nat)
    requires i <= j <= |s| && SpacesIn(s, i, j)
    ensures AllSpace(s[i..j])
  {
    forall k | 0 <= k < j - i ensures SpaceAt(s[i..j], k) {
      assert SpaceAt(s, i + k);
    }
  }

  /** The white space `strip()` removes from each end of `s`. */
  lemma StripSplit(s: string)
    requires !AllSpace(s)
    ensures var a := SkipSpaces(s, 0); var b := TrailStart(s, |s|);
      a < b && Strip(s) == s[a..b] && AllSpace(s[..a]) && AllSpace(s[b..])
  {
    var a := SkipSpaces(s, 0);
    var b := TrailStart(s, |s|);
    SpacesInAll(s, 0, a);
    SpacesInAll(s, b, |s|);
    assert s[0..a] == s[..a] && s[b..|s|] == s[b..];
  }

  /** `strip()` only removes characters, so a character absent from the
      text is absent from the result. */
  lemma StripKeepsOut(s: string, c: char)
    requires c !in s
    ensures c !in Strip(s)
  {
    if !AllSpace(s) {
      StripSplit(s);
    }
  }

  lemma Regroup(x: string, p: string, m: string, q: string, z: string)
    ensures x + (p + m + q) + z == (x + p) + m + (q + z)
  {
  }

  /** White space around a string does not change what `strip()` gives. */
  lemma StripPad(x: string, y: string, z: string)
    requires AllSpace(x) && AllSpace(z)
    ensures Strip(x + y + z) == Strip(y)
  {
    if AllSpace(y) {
      AllSpaceConcat(x, y);
      AllSpaceConcat(x + y, z);
    } else {
      StripSplit(y);
      var a := SkipSpaces(y, 0);
      var b := TrailStart(y, |y|);
      var p, m, q := y[..a], y[a..b], y[b..];
      AllSpaceConcat(x, p);
      AllSpaceConcat(q, z);
      assert y == p + m + q;
      Regroup(x, p, m, q, z);
      StripFrame(x + p, m, q + z);
    }
  }

  /** White space before a string does not change what `strip()` gives. */
  lemma StripPadLeft(x: string, y: string)
    requires AllSpace(x)
    ensures Strip(x + y) == Strip(y)
  {
    StripPad(x, y, []);
    assert x + y + [] == x + y;
    StripPad([], y, []);
    assert [] + y + [] == y;
  }

  /** A trimmed string is its own `strip()`. */
  lemma StripOfTrimmed(s: string)
    requires Trimmed(s)
    ensures Strip(s) == s
  {
    StripFrame([], s, []);
    assert [] + s + [] == s;
  }

  /** White space after a string does not change what `strip()` gives. */
  lemma StripPadRight(y: string, z: string)
    requires AllSpace(z)
    ensures Strip(y + z) == Strip(y)
  {
    StripPad([], y, z);
    assert [] + y + z == y + z;
    StripPad([], y, []);
    assert [] + y + [] == y;
  }

  /** The first line break at or after `i`, or the end of `s`. */
  function LineEnd(s: string, i: nat): (e: nat)
    requires i <= |s|
    ensures i <= e <= |s|
    ensures NoBreakIn(s, i, e)
    ensures e == |s| || BreakAt(s, e)
    decreases |s| - i
  {
    if i < |s| && !BreakAt(s, i) then LineEnd(s, i + 1) else i
  }

  /** `s.split('\n')`: always at least one piece, none holding a break. */
  function Lines(s: string): (ls: seq<string>)
    ensures |ls| >= 1
    ensures forall k | 0 <= k < |ls| :: '\n' !in ls[k]
    decreases |s|
  {
    var e := LineEnd(s, 0);
    if e == |s| then
      assert '\n' !in s by {
        forall k | 0 <= k < e ensures s[k] != '\n' {
          assert !BreakAt(s, k);
        }
      }
      [s]
    else
      assert '\n' !in s[..e] by {
        forall k | 0 <= k < e ensures s[..e][k] != '\n' {
          assert !BreakAt(s, k);
        }
      }
      [s[..e]] + Lines(s[e + 1..])
  }

  /** `'\n'.join(ls)`, the inverse of `Lines`. */
  function JoinLines(ls: seq<string>): string
    requires |ls| >= 1
  {
    if |ls| == 1 then ls[0] else ls[0] + "\n" + JoinLines(ls[1..])
  }

  /** Splitting and re-joining gives back the text. */
  lemma {:induction false} JoinLinesOfLines(s: string)
    ensures JoinLines(Lines(s)) == s
    decreases |s|
  {
    var e := LineEnd(s, 0);
    if e < |s| {
      JoinLinesOfLines(s[e + 1..]);
      assert s == s[..e] + "\n" + s[e + 1..];
    }
  }

  /** A line without breaks ends where the string does. */
  lemma LineEndOfUnbroken(s: string)
    requires '\n' !in s
    ensures LineEnd(s, 0) == |s|
  {
    forall k | 0 <= k < |s| ensures !BreakAt(s, k) {
      assert s[k] in s;
    }
    LineEndAt(s, 0, |s|);
  }

  /** The first line of joined lines, and what follows its break. */
  lemma JoinHead(ls: seq<string>)
    requires |ls| >= 2 && '\n' !in ls[0]
    ensures var s := JoinLines(ls);
      && |ls[0]| < |s| && LineEnd(s, 0) == |ls[0]|
      && s[..|ls[0]|] == ls[0] && s[|ls[0]| + 1..] == JoinLines(ls[1..])
  {
    var s := JoinLines(ls);
    var rest := JoinLines(ls[1..]);
    assert s == ls[0] + "\n" + rest;
    assert BreakAt(s, |ls[0]|);
    forall k | 0 <= k < |ls[0]| ensures !BreakAt(s, k) {
      assert s[k] == ls[0][k];
      assert ls[0][k] in ls[0];
    }
    LineEndAt(s, 0, |ls[0]|);
    assert s[..|ls[0]|] == ls[0];
    assert s[|ls[0]| + 1..] == rest;
  }

  /** Joining lines without breaks and splitting again gives the lines. */
  lemma {:induction false} LinesOfJoinLines(ls: seq<string>)
    requires |ls| >= 1
    requires forall k | 0 <= k < |ls| :: '\n' !in ls[k]
    ensures Lines(JoinLines(ls)) == ls
    decreases |ls|
  {
    if |ls| == 1 {
      LineEndOfUnbroken(ls[0]);
    } else {
      JoinHead(ls);
      assert forall k | 0 <= k < |ls[1..]| :: ls[1..][k] == ls[k + 1];
      LinesOfJoinLines(ls[1..]);
      assert ls == [ls[0]] + ls[1..];
    }
  }

  /** `s[i:].startswith(lab)`. */
  predicate LabelAt(s: string, i: nat, lab: string) {
    i + |lab| <= |s| && s[i..i + |lab|] == lab
  }

  /** A space run that ends at a non-space ends where `SkipSpaces` says. */
  lemma {:induction false} SkipSpacesStops(s: string, i: nat, q: nat)
    requires i <= q <= |s|
    requires SpacesIn(s, i, q)
    requires q == |s| || !SpaceAt(s, q)
    ensures SkipSpaces(s, i) == q
    decreases q - i
  {
    if i < q {
      SkipSpacesStops(s, i + 1, q);
    }
  }

  /** A space run that starts after a non-space starts where
      `TrailStart` says. */
  lemma {:induction false} TrailStartStops(s: string, q: nat, j: nat)
    requires q <= j <= |s|
    requires SpacesIn(s, q, j)
    requires q == 0 || !SpaceAt(s, q - 1)
    ensures TrailStart(s, j) == q
    decreases j - q
  {
    if q < j {
      TrailStartStops(s, q, j - 1);
    }
  }

  /** A stretch without breaks that ends at a break, or at the end, ends
      where `LineEnd` says. */
  lemma LineEndAt(s: string, i: nat, q: nat)
    requires i <= q <= |s| && NoBreakIn(s, i, q)
    requires q == |s| || BreakAt(s, q)
    ensures LineEnd(s, i) == q
  {
    NoBreakInLineEnd(s, i, q);
  }

  /** A digit run that ends at a non-digit ends where `SkipDigits` says. */
  lemma {:induction false} SkipDigitsStops(s: string, i: nat, q: nat)
    requires i <= q <= |s|
    requires DigitsIn(s, i, q)
    requires q == |s| || !DigitAt(s, q)
    ensures SkipDigits(s, i) == q
    decreases q - i
  {
    if i < q {
      SkipDigitsStops(s, i + 1, q);
    }
  }

  /** `.` matches all of `s[i..j]` exactly when `j` does not pass the end
      of the line of `i`. */
  lemma NoBreakInLineEnd(s: string, i: nat, j: nat)
    requires i <= j <= |s|
    ensures NoBreakIn(s, i, j) <==> j <= LineEnd(s, i)
  {
  }

  /** Joining two runs of lines puts one break between them. */
  lemma {:induction false} JoinLinesSplit(a: seq<string>, b: seq<string>)
    requires |a| >= 1 && |b| >= 1
    ensures JoinLines(a + b) == JoinLines(a) + "\n" + JoinLines(b)
    decreases |a|
  {
    if |a| > 1 {
      assert (a + b)[1..] == a[1..] + b;
      JoinLinesSplit(a[1..], b);
    } else {
      assert (a + b)[1..] == b;
    }
  }

  /** A character other than a break that no line holds is not in the
      joined text. */
  lemma {:induction false} JoinLinesAvoids(ls: seq<string>, c: char)
    requires |ls| >= 1 && c != '\n'
    requires forall k | 0 <= k < |ls| :: c !in ls[k]
    ensures c !in JoinLines(ls)
    decreases |ls|
  {
    if |ls| > 1 {
      assert forall k | 0 <= k < |ls[1..]| :: ls[1..][k] == ls[k + 1];
      JoinLinesAvoids(ls[1..], c);
    }
  }
}
