/** What each pattern of parsers/regex_parser.py means, stated without
    any search order: a `...Shape` predicate lists the conditions a way
    of matching the pattern at a position must meet. The lemmas show the
    searches of `Patterns` find a match exactly when one of these shapes
    exists, and say which one they pick: the leftmost start, the longest
    greedy run and the shortest lazy one. */
module PatternShapes {
  import opened Wrappers
  import opened Text
  import opened Decimal
  import opened Patterns

  // `\d+\.\d+`

  /** A number is found wherever `s[i..e]` is one, and it is the longest. */
  lemma NumberAtComplete(s: string, i: nat, e: nat)
    requires i <= e <= |s| && DecimalAt(s, i, e)
    ensures NumberAt(s, i).Some? && e <= NumberAt(s, i).value
  {
  }

  // `\s*\$(\d+\.\d+)`

  /** Spaces from `i` to a `$` at `d`, then a number ending at `e` that
      no further digit follows. */
  predicate AmountShape(s: string, i: nat, d: nat, e: nat) {
    i <= d < e <= |s| && SpacesIn(s, i, d) && s[d] == '$' && DecimalAt(s, d + 1, e)
    && (e == |s| || !DigitAt(s, e))
  }

  /** An amount shape is exactly what the amount pattern captures. */
  lemma AmountAtComplete(s: string, i: nat, d: nat, e: nat)
    requires AmountShape(s, i, d, e)
    ensures AmountAt(s, i) == Some(Group(d + 1, e))
  {
    SkipSpacesStops(s, i, d);
    var p := SkipDigits(s, d + 1);
    SkipDigitsStops(s, p + 1, e);
  }

  /** What the amount pattern captures is an amount shape. */
  lemma AmountAtSound(s: string, i: nat)
    requires i <= |s| && AmountAt(s, i).Some?
    ensures AmountShape(s, i, AmountAt(s, i).value.start - 1, AmountAt(s, i).value.end)
  {
    var g := AmountAt(s, i).value;
    assert NumberAt(s, g.start) == Some(g.end);
  }

  /** The amount pattern matches at `i` exactly when an amount shape
      exists there, and its group is one. */
  lemma AmountAtIff(s: string, i: nat)
    requires i <= |s|
    ensures AmountAt(s, i).Some? <==> exists d: nat, e: nat :: AmountShape(s, i, d, e)
    ensures AmountAt(s, i).Some? ==>
      AmountShape(s, i, AmountAt(s, i).value.start - 1, AmountAt(s, i).value.end)
  {
    if AmountAt(s, i).Some? {
      AmountAtSound(s, i);
    }
    if exists d: nat, e: nat :: AmountShape(s, i, d, e) {
      var d: nat, e: nat :| AmountShape(s, i, d, e);
      AmountAtComplete(s, i, d, e);
    }
  }

  // `re.search`

  /** `re.search` succeeds exactly when the pattern matches somewhere,
      and reports the first position where it does. */
  lemma SearchIff(s: string, pat: Pattern)
    ensures Search(s, pat).Some? <==> exists k | 0 <= k <= |s| :: MatchAt(s, k, pat).Some?
    ensures Search(s, pat).Some? ==> forall k | 0 <= k < Search(s, pat).value.start :: MatchAt(s, k, pat).None?
  {
    var f := Matcher(s, pat);
    if FirstSome(f, 0, |s|).Some? {
      var k := FirstSome(f, 0, |s|).value.0;
      assert f(k).Some?;
      assert MatchAt(s, k, pat).Some?;
      SearchLeftmost(s, pat);
    } else {
      forall k | 0 <= k <= |s| ensures MatchAt(s, k, pat).None? {
        assert f(k).None?;
      }
    }
  }

  /** Nothing matches before the position `re.search` reports. */
  lemma SearchLeftmost(s: string, pat: Pattern)
    requires Search(s, pat).Some?
    ensures forall k | 0 <= k < Search(s, pat).value.start :: MatchAt(s, k, pat).None?
  {
    var f := Matcher(s, pat);
    forall k | 0 <= k <= |s| ensures f(k) == MatchAt(s, k, pat) { }
  }

  /** A position where the pattern matches, with no match before it, is
      the one `re.search` reports. */
  lemma SearchFirst(s: string, pat: Pattern, i: nat)
    requires MatchAt(s, i, pat).Some?
    requires forall j | 0 <= j < i :: MatchAt(s, j, pat).None?
    ensures Search(s, pat) == Some(Match(i, MatchAt(s, i, pat).value))
  {
    SearchIff(s, pat);
  }

  // `Tax.*?:\s*\$(\d+\.\d+)`

  /** `Tax`, then characters other than a line break up to a colon at `c`,
      then an amount. */
  predicate TaxShape(s: string, i: nat, c: nat, d: nat, e: nat) {
    LabelAt(s, i, "Tax") && i + 3 <= c < |s| && NoBreakIn(s, i + 3, c) && s[c] == ':'
    && AmountShape(s, c + 1, d, e)
  }

  /** The tax pattern matches wherever a tax shape exists, and the lazy
      `.*?` stops at the earliest colon that works. */
  lemma TaxMatchComplete(s: string, i: nat, c: nat, d: nat, e: nat)
    requires TaxShape(s, i, c, d, e)
    ensures TaxColon(s, i + 3).Some? && TaxColon(s, i + 3).value.0 <= c
    ensures TaxMatchAt(s, i).Some?
    ensures TaxColon(s, i + 3).value.0 == c ==> TaxMatchAt(s, i) == Some(Group(d + 1, e))
  {
    AmountAtComplete(s, c + 1, d, e);
    assert ColonAmount(s, c) == Some(Group(d + 1, e));
    NoBreakInLineEnd(s, i + 3, c);
    var r := TaxColon(s, i + 3);
    assert r.Some? && r.value.0 <= c;
    if r.value.0 == c {
      assert r.value.1 == Group(d + 1, e);
    }
  }

  /** The colon the lazy `.*?` stops at lies on the label's line and an
      amount follows it. */
  lemma TaxColonSound(s: string, c0: nat, c: nat, g: Group)
    requires c0 <= |s| && TaxColon(s, c0) == Some((c, g))
    ensures c0 <= c < |s| && s[c] == ':' && NoBreakIn(s, c0, c) && AmountAt(s, c + 1) == Some(g)
  {
    assert ColonAmount(s, c) == Some(g);
    NoBreakInLineEnd(s, c0, c);
  }

  /** The label, then a colon on its line that an amount follows: a
      tax shape. */
  lemma TaxShapeOfColon(s: string, i: nat, c: nat, g: Group)
    requires LabelAt(s, i, "Tax") && i + 3 <= c < |s| && s[c] == ':' && NoBreakIn(s, i + 3, c)
    requires AmountAt(s, c + 1) == Some(g)
    ensures TaxShape(s, i, c, g.start - 1, g.end)
  {
    AmountAtSound(s, c + 1);
  }

  /** Every tax match has its shape, with the first colon on the line of
      the label that an amount follows. */
  lemma TaxMatchSound(s: string, i: nat)
    requires TaxMatchAt(s, i).Some?
    ensures var c := TaxColon(s, i + 3).value.0;
      var g := TaxMatchAt(s, i).value;
      TaxShape(s, i, c, g.start - 1, g.end)
      && forall k | i + 3 <= k < c :: ColonAmount(s, k).None?
  {
    var (c, g) := TaxColon(s, i + 3).value;
    assert TaxMatchAt(s, i) == Some(g);
    TaxColonSound(s, i + 3, c, g);
    TaxShapeOfColon(s, i, c, g);
  }

  // `l\s*(.+)`

  /** The label, white space up to `k`, then a non-empty run of
      characters other than a line break up to `e`. */
  predicate TextShape(s: string, i: nat, l: string, k: nat, e: nat) {
    LabelAt(s, i, l) && i + |l| <= k < e <= |s| && SpacesIn(s, i + |l|, k) && NoBreakIn(s, k, e)
  }

  /** The text pattern matches wherever a text shape exists; its group
      starts no earlier and ends no earlier than that shape's. */
  lemma TextMatchComplete(s: string, i: nat, l: string, k: nat, e: nat)
    requires TextShape(s, i, l, k, e)
    ensures TextMatchAt(s, i, l).Some?
    ensures k <= TextMatchAt(s, i, l).value.start
    ensures e <= TextMatchAt(s, i, l).value.end
  {
    var p := i + |l|;
    var j := SkipSpaces(s, p);
    assert LinesFrom(s)(k).Some?;
    assert k <= j;
    var g := RestOfLine(s, p).value;
    if g.start < e {
      assert forall m | g.start <= m < e :: !BreakAt(s, m) by {
        NoBreakInLineEnd(s, k, e);
      }
      NoBreakInLineEnd(s, g.start, e);
    }
  }

  /** Every text match has its shape; its group runs to the end of the
      line and no later start, up to the end of the white space, works. */
  lemma TextMatchSound(s: string, i: nat, l: string)
    requires TextMatchAt(s, i, l).Some?
    ensures var g := TextMatchAt(s, i, l).value;
      TextShape(s, i, l, g.start, g.end) && (g.end == |s| || s[g.end] == '\n')
    ensures var g := TextMatchAt(s, i, l).value;
      forall j | g.start < j <= SkipSpaces(s, i + |l|) :: j == |s| || BreakAt(s, j)
  {
    var g := TextMatchAt(s, i, l).value;
    NoBreakInLineEnd(s, g.start, g.end);
    RestOfLineLatest(s, i + |l|);
  }

  /** The greedy `\s*` gives back only as much as `.+` needs: from every
      later start up to the end of the white space, no line is left. */
  lemma RestOfLineLatest(s: string, p: nat)
    requires p <= |s| && RestOfLine(s, p).Some?
    ensures forall j | RestOfLine(s, p).value.start < j <= SkipSpaces(s, p) :: j == |s| || BreakAt(s, j)
  {
    var g := RestOfLine(s, p).value;
    forall j | g.start < j <= SkipSpaces(s, p) ensures j == |s| || BreakAt(s, j) {
      assert LinesFrom(s)(j).None?;
    }
  }

  /** The group starts at the last position the white space reaches from
      which a line goes on. */
  lemma RestOfLineFrom(s: string, p: nat, k: nat)
    requires p <= k < |s| && k <= SkipSpaces(s, p) && !BreakAt(s, k)
    requires forall j | k < j <= SkipSpaces(s, p) :: j == |s| || BreakAt(s, j)
    ensures RestOfLine(s, p) == Some(Group(k, LineEnd(s, k)))
  {
    assert LinesFrom(s)(k).Some?;
    forall j | k < j <= SkipSpaces(s, p) ensures LinesFrom(s)(j).None? {
    }
  }

  /** When a line starts where the white space ends, that is where the
      group starts. */
  lemma RestOfLineAt(s: string, p: nat)
    requires p <= |s|
    requires SkipSpaces(s, p) < |s| && !BreakAt(s, SkipSpaces(s, p))
    ensures RestOfLine(s, p) == Some(Group(SkipSpaces(s, p), LineEnd(s, SkipSpaces(s, p))))
  {
    assert LinesFrom(s)(SkipSpaces(s, p)).Some?;
  }

  // `-\s*(.+?)\s*\.\.\.\s*\$(\d+\.\d+)`

  /** White space from `b` to `...` at `w`, then an amount. */
  predicate TailShape(s: string, b: nat, w: nat, d: nat, e: nat) {
    b <= w && w + 3 <= |s| && SpacesIn(s, b, w) && LabelAt(s, w, "...") && AmountShape(s, w + 3, d, e)
  }

  /** A tail shape is matched by the item tail. */
  lemma ItemTailComplete(s: string, b: nat, w: nat, d: nat, e: nat)
    requires TailShape(s, b, w, d, e)
    ensures ItemTail(s, b).Some?
  {
    assert s[w] == '.';
    SkipSpacesStops(s, b, w);
    AmountAtComplete(s, w + 3, d, e);
  }

  /** An item tail match has the tail shape, with `...` right after the
      white space. */
  lemma ItemTailSound(s: string, b: nat)
    requires ItemTail(s, b).Some?
    ensures var g := ItemTail(s, b).value;
      TailShape(s, b, SkipSpaces(s, b), g.start - 1, g.end)
  {
    AmountAtIff(s, SkipSpaces(s, b) + 3);
  }

  /** The amount a tail shape ends with is the one the item tail captures. */
  lemma ItemTailValue(s: string, b: nat, d: nat, e: nat)
    requires b <= |s| && TailShape(s, b, SkipSpaces(s, b), d, e)
    ensures ItemTail(s, b) == Some(Group(d + 1, e))
  {
    var w := SkipSpaces(s, b);
    assert s[w] == '.';
    AmountAtComplete(s, w + 3, d, e);
  }

  /** The item tail matches at `b` exactly when a tail shape exists there. */
  lemma ItemTailIff(s: string, b: nat)
    ensures ItemTail(s, b).Some? <==> exists w: nat, d: nat, e: nat :: TailShape(s, b, w, d, e)
  {
    if ItemTail(s, b).Some? {
      ItemTailSound(s, b);
    }
    if exists w: nat, d: nat, e: nat :: TailShape(s, b, w, d, e) {
      var w: nat, d: nat, e: nat :| TailShape(s, b, w, d, e);
      ItemTailComplete(s, b, w, d, e);
    }
  }

  /** A dash at `i`, white space up to `a`, a description `s[a..b]` of
      at least one character and no line break, then an item tail. */
  predicate ItemShape(s: string, i: nat, a: nat, b: nat) {
    i < |s| && s[i] == '-' && i + 1 <= a < b <= |s| && SpacesIn(s, i + 1, a) && NoBreakIn(s, a, b)
    && ItemTail(s, b).Some?
  }

  /** From a start `a`, the lazy description accepts the end `b` when the
      tail does, so it ends no later than `b`. */
  lemma ShortestDescComplete(s: string, a: nat, b: nat)
    requires a < b <= |s| && NoBreakIn(s, a, b) && ItemTail(s, b).Some?
    ensures ShortestDesc(s, a).Some? && ShortestDesc(s, a).value.0 <= b
  {
    NoBreakInLineEnd(s, a, b);
    assert Tails(s)(b).Some?;
  }

  /** The item pattern matches wherever an item shape exists. The
      description it captures starts as late as possible and, from that
      start, ends as early as possible. */
  lemma ItemMatchComplete(s: string, i: nat, a: nat, b: nat)
    requires ItemShape(s, i, a, b)
    ensures ItemAt(s, i).Some?
    ensures var g := ItemAt(s, i).value[0];
      a <= g.start && (a == g.start ==> g.end <= b)
  {
    var lo := SkipSpaces(s, i + 1);
    assert a <= lo;
    ShortestDescComplete(s, a, b);
    assert Descs(s)(a).Some?;
  }

  /** Every item match has its shape, and no later start up to the end of
      the white space, nor a shorter description, would have done. */
  lemma ItemMatchSound(s: string, i: nat)
    requires ItemAt(s, i).Some?
    ensures var g := ItemAt(s, i).value[0];
      ItemShape(s, i, g.start, g.end)
      && (forall j | g.start < j <= SkipSpaces(s, i + 1) :: ShortestDesc(s, j).None?)
      && (forall b | g.start < b < g.end :: ItemTail(s, b).None?)
  {
    var g := ItemAt(s, i).value[0];
    NoBreakInLineEnd(s, g.start, g.end);
    forall j | g.start < j <= SkipSpaces(s, i + 1) ensures ShortestDesc(s, j).None? {
      assert Descs(s)(j).None?;
    }
    forall b | g.start < b < g.end ensures ItemTail(s, b).None? {
      assert Tails(s)(b).None?;
    }
  }

  /** Every item match has `...` in it, right after the description. */
  lemma ItemMatchHasDots(s: string, i: nat)
    requires ItemAt(s, i).Some?
    ensures exists w :: ItemAt(s, i).value[0].end <= w && LabelAt(s, w, "...")
  {
    var g := ItemAt(s, i).value[0];
    ItemTailIff(s, g.end);
  }
}
