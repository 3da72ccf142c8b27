/** What `parse_receipt` of parsers/regex_parser.py promises about each
    field, stated through the shapes of `PatternShapes` rather than
    through the search that computes it. */
module RegexProperties {
  import opened Wrappers
  import opened Text
  import opened Decimal
  import opened Patterns
  import opened PatternShapes
  import opened Receipt
  import opened RegexParser

  // Merchant: the first non-blank line, regex_parser.py:21-27.

  /** The first line that is not all white space decides the merchant. */
  lemma {:induction false} FirstNonBlankFirst(lines: seq<string>, k: nat)
    requires k < |lines| && !AllSpace(lines[k])
    requires forall j | 0 <= j < k :: AllSpace(lines[j])
    ensures FirstNonBlank(lines) == Some(Strip(lines[k]))
    decreases k
  {
    if k > 0 {
      assert AllSpace(lines[0]);
      assert forall j | 0 <= j < k - 1 :: lines[1..][j] == lines[j + 1];
      FirstNonBlankFirst(lines[1..], k - 1);
    }
  }

  /** The first line of `s` is the text up to its first break. */
  lemma FirstLine(s: string)
    ensures Lines(s)[0] == s[..LineEnd(s, 0)]
  {
  }

  /** There is no merchant exactly when the text is empty or white space. */
  lemma MerchantIff(text: string)
    ensures Merchant(text).None? <==> AllSpace(text)
  {
    var t := Strip(text);
    var lines := Lines(t);
    FirstLine(t);
    if !AllSpace(text) {
      assert !SpaceAt(t, 0);
      assert !SpaceAt(lines[0], 0);
    }
  }

  /** The first line of a slice `s[a..b]` ends where the line from `a`
      in `s` ends, or at `b` when that comes first. */
  lemma FirstLineOfSlice(s: string, a: nat, b: nat)
    requires a <= b <= |s|
    ensures var l := LineEnd(s, a);
      Lines(s[a..b])[0] == s[a..if l < b then l else b]
  {
    var t := s[a..b];
    var l := LineEnd(s, a);
    var q := if l < b then l - a else |t|;
    forall k | 0 <= k < q ensures !BreakAt(t, k) {
      assert !BreakAt(s, a + k);
    }
    if l < b {
      assert BreakAt(t, l - a);
    }
    LineEndAt(t, 0, q);
    FirstLine(t);
  }

  /** White space after a slice does not change it once stripped. */
  lemma StripTrailing(s: string, a: nat, b: nat, l: nat)
    requires a <= b <= l <= |s| && SpacesIn(s, b, l)
    ensures Strip(s[a..b]) == Strip(s[a..l])
  {
    SpacesInAll(s, b, l);
    assert s[a..l] == s[a..b] + s[b..l];
    StripPadRight(s[a..b], s[b..l]);
  }

  /** Otherwise the merchant is the line holding the first character that
      is not white space, from that character on, with white space
      trimmed: blank lines and indentation before it do not count. */
  lemma MerchantFirstLine(text: string)
    requires !AllSpace(text)
    ensures var a := SkipSpaces(text, 0);
      Merchant(text) == Some(Strip(text[a..LineEnd(text, a)]))
  {
    StripSplit(text);
    var a := SkipSpaces(text, 0);
    var b := TrailStart(text, |text|);
    var l := LineEnd(text, a);
    var lines := Lines(text[a..b]);
    FirstLineOfSlice(text, a, b);
    FirstLine(text[a..b]);
    assert !SpaceAt(lines[0], 0);
    FirstNonBlankFirst(lines, 0);
    if b <= l {
      StripTrailing(text, a, b, l);
    }
  }

  // Amounts: `TOTAL:\s*\$(\d+\.\d+)` and `Subtotal:\s*\$(\d+\.\d+)`,
  // regex_parser.py:40-48.

  /** The label at `i`, then an amount shape after it. */
  predicate LabelledAmountShape(s: string, i: nat, l: string, d: nat, e: nat) {
    LabelAt(s, i, l) && AmountShape(s, i + |l|, d, e)
  }

  /** A labelled amount shape with none starting before it. */
  ghost predicate FirstAmountShape(s: string, i: nat, l: string, d: nat, e: nat) {
    LabelledAmountShape(s, i, l, d, e)
    && forall j: nat, d': nat, e': nat | j < i :: !LabelledAmountShape(s, j, l, d', e')
  }

  /** `v` is the amount of the first labelled amount shape. */
  ghost predicate FirstAmountIs(s: string, l: string, v: real) {
    exists i: nat, d: nat, e: nat ::
      FirstAmountShape(s, i, l, d, e) && v == ReadAmount(s, Group(d + 1, e))
  }

  /** What `l\s*\$(\d+\.\d+)` captures at `i` is a labelled amount
      shape there. */
  lemma AmountMatchSound(s: string, i: nat, l: string)
    requires AmountMatchAt(s, i, l).Some?
    ensures var g := AmountMatchAt(s, i, l).value;
      1 <= g.start && LabelledAmountShape(s, i, l, g.start - 1, g.end)
  {
    AmountAtSound(s, i + |l|);
  }

  /** `l\s*\$(\d+\.\d+)` matches at `i` exactly when a labelled amount
      shape starts there, and what it captures is one. */
  lemma AmountMatchIff(s: string, i: nat, l: string)
    ensures AmountMatchAt(s, i, l).Some? <==> exists d: nat, e: nat :: LabelledAmountShape(s, i, l, d, e)
    ensures AmountMatchAt(s, i, l).Some? ==>
      var g := AmountMatchAt(s, i, l).value;
      1 <= g.start && LabelledAmountShape(s, i, l, g.start - 1, g.end)
  {
    if AmountMatchAt(s, i, l).Some? {
      AmountMatchSound(s, i, l);
    }
    if exists d: nat, e: nat :: LabelledAmountShape(s, i, l, d, e) {
      var d: nat, e: nat :| LabelledAmountShape(s, i, l, d, e);
      AmountAtComplete(s, i + |l|, d, e);
    }
  }

  /** The labelled amount pattern matches at `i` exactly when a labelled
      amount shape starts there, and what it captures is one. */
  lemma LabelledAmountIff(s: string, i: nat, l: string)
    ensures MatchAt(s, i, LabelledAmount(l)).Some? <==>
      exists d: nat, e: nat :: LabelledAmountShape(s, i, l, d, e)
    ensures MatchAt(s, i, LabelledAmount(l)).Some? ==>
      var g := MatchAt(s, i, LabelledAmount(l)).value[0];
      1 <= g.start && LabelledAmountShape(s, i, l, g.start - 1, g.end)
  {
    assert MatchAt(s, i, LabelledAmount(l)) == Single(AmountMatchAt(s, i, l));
    AmountMatchIff(s, i, l);
  }

  /** The first labelled amount shape in the text decides the field. */
  lemma FindAmountFirst(text: string, l: string, i: nat, d: nat, e: nat)
    requires FirstAmountShape(text, i, l, d, e)
    ensures FindAmount(text, LabelledAmount(l)) == Some(ReadAmount(text, Group(d + 1, e)))
  {
    AmountAtComplete(text, i + |l|, d, e);
    NoAmountMatchBefore(text, l, i);
    FindAmountAt(text, l, i, Group(d + 1, e));
  }

  /** Where no labelled amount shape starts, the pattern does not match. */
  lemma NoAmountMatchBefore(text: string, l: string, i: nat)
    requires forall j: nat, d: nat, e: nat | j < i :: !LabelledAmountShape(text, j, l, d, e)
    ensures forall j | 0 <= j < i :: MatchAt(text, j, LabelledAmount(l)).None?
  {
    forall j | 0 <= j < i ensures MatchAt(text, j, LabelledAmount(l)).None? {
      LabelledAmountIff(text, j, l);
    }
  }

  /** The field is the amount of the leftmost match of the pattern. */
  lemma FindAmountAt(text: string, l: string, i: nat, g: Group)
    requires AmountMatchAt(text, i, l) == Some(g)
    requires forall j | 0 <= j < i :: MatchAt(text, j, LabelledAmount(l)).None?
    ensures FindAmount(text, LabelledAmount(l)) == Some(ReadAmount(text, g))
  {
    assert MatchAt(text, i, LabelledAmount(l)) == Some([g]);
    SearchFirst(text, LabelledAmount(l), i);
  }

  /** Where the labelled amount pattern does not match, no labelled
      amount shape starts. */
  lemma NoShapeBefore(text: string, l: string, i: nat)
    requires forall j | 0 <= j < i :: MatchAt(text, j, LabelledAmount(l)).None?
    ensures forall j: nat, d: nat, e: nat | j < i :: !LabelledAmountShape(text, j, l, d, e)
  {
    forall j: nat, d: nat, e: nat | j < i ensures !LabelledAmountShape(text, j, l, d, e) {
      LabelledAmountIff(text, j, l);
    }
  }

  /** Conversely every amount found comes from the first labelled amount
      shape in the text. */
  lemma FindAmountSound(text: string, l: string)
    requires FindAmount(text, LabelledAmount(l)).Some?
    ensures FirstAmountIs(text, l, FindAmount(text, LabelledAmount(l)).value)
  {
    var m := Search(text, LabelledAmount(l)).value;
    var i := m.start;
    var g := m.groups[0];
    assert m.groups == [g];
    LabelledAmountIff(text, i, l);
    SearchLeftmost(text, LabelledAmount(l));
    NoShapeBefore(text, l, i);
    assert FirstAmountShape(text, i, l, g.start - 1, g.end);
    FindAmountFirst(text, l, i, g.start - 1, g.end);
  }

  /** The field is missing exactly when no labelled amount shape exists. */
  lemma FindAmountNone(text: string, l: string)
    ensures FindAmount(text, LabelledAmount(l)).None? <==>
      forall i: nat, d: nat, e: nat :: !LabelledAmountShape(text, i, l, d, e)
  {
    if FindAmount(text, LabelledAmount(l)).Some? {
      FindAmountSound(text, l);
    } else {
      SearchIff(text, LabelledAmount(l));
      forall i: nat, d: nat, e: nat ensures !LabelledAmountShape(text, i, l, d, e) {
        if LabelledAmountShape(text, i, l, d, e) {
          LabelledAmountIff(text, i, l);
        }
      }
    }
  }

  // Tax: `Tax.*?:\s*\$(\d+\.\d+)`, regex_parser.py:50-53.

  /** A tax shape with none starting before it, and none at the same
      start with an earlier colon: the lazy `.*?` takes the first colon
      an amount follows. */
  ghost predicate FirstTaxShape(s: string, i: nat, c: nat, d: nat, e: nat) {
    TaxShape(s, i, c, d, e)
    && (forall j: nat, c': nat, d': nat, e': nat | j < i :: !TaxShape(s, j, c', d', e'))
    && (forall c': nat, d': nat, e': nat | c' < c :: !TaxShape(s, i, c', d', e'))
  }

  /** `v` is the amount of the first tax shape. */
  ghost predicate FirstTaxIs(s: string, v: real) {
    exists i: nat, c: nat, d: nat, e: nat ::
      FirstTaxShape(s, i, c, d, e) && v == ReadAmount(s, Group(d + 1, e))
  }

  /** The tax pattern matches at `i` exactly when a tax shape starts there. */
  lemma TaxAtIff(s: string, i: nat)
    ensures MatchAt(s, i, TaxAmount).Some? <==> exists c: nat, d: nat, e: nat :: TaxShape(s, i, c, d, e)
  {
    if MatchAt(s, i, TaxAmount).Some? {
      TaxMatchSound(s, i);
    }
    if exists c: nat, d: nat, e: nat :: TaxShape(s, i, c, d, e) {
      var c: nat, d: nat, e: nat :| TaxShape(s, i, c, d, e);
      TaxMatchComplete(s, i, c, d, e);
    }
  }

  /** At a start with no tax shape whose colon comes earlier, the tax
      pattern captures the amount after the colon of the shape. */
  lemma TaxAtFirstColon(s: string, i: nat, c: nat, d: nat, e: nat)
    requires TaxShape(s, i, c, d, e)
    requires forall c': nat, d': nat, e': nat | c' < c :: !TaxShape(s, i, c', d', e')
    ensures TaxMatchAt(s, i) == Some(Group(d + 1, e))
  {
    TaxMatchComplete(s, i, c, d, e);
    TaxMatchSound(s, i);
  }

  /** The first tax shape in the text decides the tax. */
  lemma FindTaxFirst(text: string, i: nat, c: nat, d: nat, e: nat)
    requires FirstTaxShape(text, i, c, d, e)
    ensures FindAmount(text, TaxAmount) == Some(ReadAmount(text, Group(d + 1, e)))
  {
    TaxAtFirstColon(text, i, c, d, e);
    assert MatchAt(text, i, TaxAmount) == Some([Group(d + 1, e)]);
    forall j | 0 <= j < i ensures MatchAt(text, j, TaxAmount).None? {
      TaxAtIff(text, j);
    }
    SearchFirst(text, TaxAmount, i);
    assert Search(text, TaxAmount) == Some(Match(i, [Group(d + 1, e)]));
  }

  /** A tax shape has a colon that an amount follows. */
  lemma TaxShapeColon(s: string, i: nat, c: nat, d: nat, e: nat)
    requires TaxShape(s, i, c, d, e)
    ensures ColonAmount(s, c).Some?
  {
    AmountAtComplete(s, c + 1, d, e);
  }

  /** Every tax found comes from the first tax shape in the text. */
  lemma FindTaxSound(text: string)
    requires FindAmount(text, TaxAmount).Some?
    ensures FirstTaxIs(text, FindAmount(text, TaxAmount).value)
  {
    var m := Search(text, TaxAmount).value;
    var i := m.start;
    assert MatchAt(text, i, TaxAmount) == Some(m.groups);
    var (c, g) := TaxColon(text, i + 3).value;
    assert TaxMatchAt(text, i) == Some(g);
    assert m.groups == [g];
    assert FindAmount(text, TaxAmount) == Some(ReadAmount(text, g));
    TaxMatchSound(text, i);
    SearchLeftmost(text, TaxAmount);
    forall j: nat, c': nat, d': nat, e': nat | j < i ensures !TaxShape(text, j, c', d', e') {
      TaxAtIff(text, j);
    }
    forall c': nat, d': nat, e': nat | c' < c ensures !TaxShape(text, i, c', d', e') {
      if TaxShape(text, i, c', d', e') {
        TaxShapeColon(text, i, c', d', e');
      }
    }
    assert FirstTaxShape(text, i, c, g.start - 1, g.end);
  }

  /** The tax is missing exactly when no tax shape exists. */
  lemma FindTaxNone(text: string)
    ensures FindAmount(text, TaxAmount).None? <==>
      forall i: nat, c: nat, d: nat, e: nat :: !TaxShape(text, i, c, d, e)
  {
    if FindAmount(text, TaxAmount).Some? {
      FindTaxSound(text);
    } else {
      SearchIff(text, TaxAmount);
      forall i: nat, c: nat, d: nat, e: nat ensures !TaxShape(text, i, c, d, e) {
        if TaxShape(text, i, c, d, e) {
          TaxAtIff(text, i);
        }
      }
    }
  }

  // Text fields: `Date:\s*(.+)` and `Invoice #:\s*(.+)`, regex_parser.py:29-38.

  /** A text shape with none starting before it. */
  ghost predicate FirstTextShape(s: string, i: nat, l: string, k: nat, e: nat) {
    TextShape(s, i, l, k, e)
    && forall j: nat, k': nat, e': nat | j < i :: !TextShape(s, j, l, k', e')
  }

  /** The text pattern matches at `i` exactly when a text shape starts
      there. */
  lemma TextAtIff(s: string, i: nat, l: string)
    ensures MatchAt(s, i, LabelledText(l)).Some? <==> exists k: nat, e: nat :: TextShape(s, i, l, k, e)
  {
    if MatchAt(s, i, LabelledText(l)).Some? {
      TextMatchSound(s, i, l);
    }
    if exists k: nat, e: nat :: TextShape(s, i, l, k, e) {
      var k: nat, e: nat :| TextShape(s, i, l, k, e);
      TextMatchComplete(s, i, l, k, e);
    }
  }

  /** Where the text pattern does not match, no text shape starts. */
  lemma NoTextBefore(text: string, l: string, i: nat)
    requires forall j | 0 <= j < i :: MatchAt(text, j, LabelledText(l)).None?
    ensures forall j: nat, k: nat, e: nat | j < i :: !TextShape(text, j, l, k, e)
  {
    forall j: nat, k: nat, e: nat | j < i ensures !TextShape(text, j, l, k, e) {
      TextAtIff(text, j, l);
    }
  }

  /** The field is missing exactly when no text shape exists. */
  lemma FindTextNone(text: string, l: string)
    ensures FindText(text, l).None? <==> forall i: nat, k: nat, e: nat :: !TextShape(text, i, l, k, e)
  {
    SearchIff(text, LabelledText(l));
    if FindText(text, l).Some? {
      var i := Search(text, LabelledText(l)).value.start;
      TextAtIff(text, i, l);
    } else {
      forall i: nat, k: nat, e: nat ensures !TextShape(text, i, l, k, e) {
        if TextShape(text, i, l, k, e) {
          TextAtIff(text, i, l);
        }
      }
    }
  }

  /** Every value found is the rest of a line after the first label in the
      text that some line follows, stripped. The line is the last one that
      the white space after the label reaches and that is not empty, so it
      may lie below the label's own line. */
  lemma FindTextSound(text: string, l: string)
    requires FindText(text, l).Some?
    ensures exists i: nat, k: nat ::
      && k <= |text|
      && FirstTextShape(text, i, l, k, LineEnd(text, k))
      && (forall j | k < j <= SkipSpaces(text, i + |l|) :: j == |text| || BreakAt(text, j))
      && FindText(text, l) == Some(Strip(text[k..LineEnd(text, k)]))
  {
    var m := Search(text, LabelledText(l)).value;
    var i := m.start;
    assert MatchAt(text, i, LabelledText(l)) == Some(m.groups);
    var g := TextMatchAt(text, i, l).value;
    assert m.groups == [g];
    assert FindText(text, l) == Some(Strip(text[g.start..g.end]));
    TextMatchFacts(text, i, l);
    SearchLeftmost(text, LabelledText(l));
    NoTextBefore(text, l, i);
    assert FirstTextShape(text, i, l, g.start, LineEnd(text, g.start));
  }

  /** What the text pattern captures at `i`: a text shape running to the
      end of its line, from the last start the white space reaches. */
  lemma TextMatchFacts(text: string, i: nat, l: string)
    requires TextMatchAt(text, i, l).Some?
    ensures var g := TextMatchAt(text, i, l).value;
      && g.end == LineEnd(text, g.start)
      && TextShape(text, i, l, g.start, g.end)
      && forall j | g.start < j <= SkipSpaces(text, i + |l|) :: j == |text| || BreakAt(text, j)
  {
    TextMatchSound(text, i, l);
    RestOfLineLatest(text, i + |l|);
  }

  /** Where no text shape starts, the text pattern does not match. */
  lemma NoTextMatchBefore(text: string, l: string, i: nat)
    requires forall j: nat, k: nat, e: nat | j < i :: !TextShape(text, j, l, k, e)
    ensures forall j | 0 <= j < i :: MatchAt(text, j, LabelledText(l)).None?
  {
    forall j | 0 <= j < i ensures MatchAt(text, j, LabelledText(l)).None? {
      TextAtIff(text, j, l);
    }
  }

  /** The field is the group of the leftmost match of the text pattern,
      stripped. */
  lemma FindTextAt(text: string, l: string, i: nat, g: Group)
    requires TextMatchAt(text, i, l) == Some(g)
    requires forall j | 0 <= j < i :: MatchAt(text, j, LabelledText(l)).None?
    ensures FindText(text, l) == Some(Strip(text[g.start..g.end]))
  {
    assert MatchAt(text, i, LabelledText(l)) == Some([g]);
    SearchFirst(text, LabelledText(l), i);
  }

  /** Conversely, after the first label in the text, the last position
      the white space reaches from which a line goes on starts the value. */
  lemma FindTextFirst(text: string, l: string, i: nat, k: nat)
    requires LabelAt(text, i, l)
    requires forall j: nat, k': nat, e': nat | j < i :: !TextShape(text, j, l, k', e')
    requires i + |l| <= k <= SkipSpaces(text, i + |l|) && k < |text| && !BreakAt(text, k)
    requires forall j | k < j <= SkipSpaces(text, i + |l|) :: j == |text| || BreakAt(text, j)
    ensures FindText(text, l) == Some(Strip(text[k..LineEnd(text, k)]))
  {
    RestOfLineFrom(text, i + |l|, k);
    NoTextMatchBefore(text, l, i);
    FindTextAt(text, l, i, Group(k, LineEnd(text, k)));
  }

  /** White space before a slice does not change it once stripped. */
  lemma StripLeading(s: string, p: nat, q: nat, l: nat)
    requires p <= q <= l <= |s| && SpacesIn(s, p, q)
    ensures Strip(s[q..l]) == Strip(s[p..l])
  {
    SpacesInAll(s, p, q);
    assert s[p..l] == s[p..q] + s[q..l];
    StripPadLeft(s[p..q], s[q..l]);
  }

  /** In the usual case, where the label is the first in the text and its
      own line goes on with more than white space, the value is the rest
      of that line, stripped. */
  lemma FindTextSameLine(text: string, l: string, i: nat)
    requires LabelAt(text, i, l)
    requires forall j: nat, k: nat, e: nat | j < i :: !TextShape(text, j, l, k, e)
    requires !AllSpace(text[i + |l|..LineEnd(text, i + |l|)])
    ensures FindText(text, l) == Some(Strip(text[i + |l|..LineEnd(text, i + |l|)]))
  {
    var p := i + |l|;
    var e := LineEnd(text, p);
    var q := SkipSpaces(text, p);
    var t := text[p..e];
    var n :| 0 <= n < |t| && !SpaceAt(t, n);
    assert !SpaceAt(text, p + n);
    assert q <= p + n < e;
    LineEndAt(text, q, e);
    RestOfLineAt(text, p);
    assert TextMatchAt(text, i, l) == Some(Group(q, e));
    assert MatchAt(text, i, LabelledText(l)) == Some([Group(q, e)]);
    forall j | 0 <= j < i ensures MatchAt(text, j, LabelledText(l)).None? {
      TextAtIff(text, j, l);
    }
    SearchFirst(text, LabelledText(l), i);
    StripLeading(text, p, q, e);
  }
}
