/** The receipt the rule-based parser is written against
    (parsers/regex_parser.py:70-86, in comments there) and the three
    facts its self-check asserts (lines 107-109): the merchant is
    `ACME Office Supplies`, the total is 71.81 and there are three
    items. */
module SampleReceipt {
  import opened Wrappers
  import opened Text
  import opened Decimal
  import opened Patterns
  import opened PatternShapes
  import opened Receipt
  import opened RegexParser
  import opened RegexProperties
  import opened RegexItems
  import opened RegexExamples

  /** The lines of the receipt, between the line breaks that open and
      close the triple-quoted literal. */
  const SampleLines: seq<string> := [
    "ACME Office Supplies",
    "123 Business St, New York",
    "Date: 2024-01-15",
    "Invoice #: INV-2024-001",
    "",
    "Items:",
    "- Paper (A4, 5 reams) ... $45.00",
    "- Pens (Blue, pack of 12) ... $8.50",
    "- Stapler ... $12.99",
    "",
    "Subtotal: $66.49",
    "Tax (8%): $5.32",
    "TOTAL: $71.81",
    "",
    "Thank you for your business!"]

  const Sample: string := "\n" + JoinLines(SampleLines) + "\n"

  /** No character of `s` is `c`, stated position by position. */
  predicate Lacks(s: string, c: char) {
    forall k | 0 <= k < |s| :: s[k] != c
  }

  /** `Lacks` as membership. */
  lemma LacksNotIn(s: string, c: char)
    requires Lacks(s, c)
    ensures c !in s
  {
  }

  /** `Lacks` as membership, for the first `n` lines. */
  lemma LacksNone(ls: seq<string>, c: char, n: nat)
    requires n <= |ls| && forall k | 0 <= k < n :: Lacks(ls[k], c)
    ensures forall k | 0 <= k < n :: c !in ls[k]
  {
    forall k | 0 <= k < n ensures c !in ls[k] {
      LacksNotIn(ls[k], c);
    }
  }

  // Facts about whole texts made of lines.

  /** Regrouping the pieces of a text cut around one line. */
  lemma Regrouped(a: string, x: string, b: string)
    ensures "\n" + (a + "\n" + (x + "\n" + b)) + "\n" == ("\n" + a + "\n") + x + ("\n" + b + "\n")
  {
  }

  /** A text written as lines between two breaks, cut around line `n`. */
  lemma FramedAround(ls: seq<string>, n: nat)
    requires 1 <= n < |ls| - 1
    ensures "\n" + JoinLines(ls) + "\n" ==
      ("\n" + JoinLines(ls[..n]) + "\n") + ls[n] + ("\n" + JoinLines(ls[n + 1..]) + "\n")
  {
    var a := ls[..n];
    var b := ls[n + 1..];
    var tail := [ls[n]] + b;
    assert ls == a + tail;
    JoinLinesSplit([ls[n]], b);
    assert JoinLines([ls[n]]) == ls[n];
    assert JoinLines(tail) == ls[n] + "\n" + JoinLines(b);
    JoinLinesSplit(a, tail);
    assert JoinLines(ls) == JoinLines(a) + "\n" + JoinLines(tail);
    Regrouped(JoinLines(a), ls[n], JoinLines(b));
  }

  /** Lines between two breaks, the first starting and the last ending
      with a character that is not white space, are what
      `text.strip().split('\n')` gives back. */
  lemma FramedLines(ls: seq<string>)
    requires |ls| >= 2 && |ls[0]| > 0 && |ls[|ls| - 1]| > 0
    requires !IsSpace(ls[0][0]) && !IsSpace(ls[|ls| - 1][|ls[|ls| - 1]| - 1])
    requires forall k | 0 <= k < |ls| :: '\n' !in ls[k]
    ensures ReceiptLines("\n" + JoinLines(ls) + "\n") == ls
  {
    var n := |ls| - 1;
    var body := JoinLines(ls);
    assert ls == ls[..n] + [ls[n]];
    JoinLinesSplit(ls[..n], [ls[n]]);
    assert body[|body| - 1] == ls[n][|ls[n]| - 1];
    assert body[0] == ls[0][0];
    assert AllSpace("\n") by {
      assert SpaceAt("\n", 0);
    }
    StripFrame("\n", body, "\n");
    LinesOfJoinLines(ls);
  }

  // The lines of the sample.

  /** No line of the sample holds a line break; stated in four groups
      so that each proof looks at a few lines only. */
  lemma UnbrokenTop()
    ensures forall k | 0 <= k < 5 :: Lacks(SampleLines[k], '\n')
  {
  }

  lemma UnbrokenMiddle()
    ensures forall k | 5 <= k < 7 :: Lacks(SampleLines[k], '\n')
  {
  }

  lemma UnbrokenItems()
    ensures forall k | 7 <= k < 10 :: Lacks(SampleLines[k], '\n')
  {
  }

  lemma UnbrokenBottom()
    ensures forall k | 10 <= k < 15 :: Lacks(SampleLines[k], '\n')
  {
  }

  /** `strip()` removes the two framing breaks, and splitting gives the
      fifteen lines back. */
  lemma SampleReceiptLines()
    ensures ReceiptLines(Sample) == SampleLines
  {
    UnbrokenTop();
    UnbrokenMiddle();
    UnbrokenItems();
    UnbrokenBottom();
    forall k | 0 <= k < |SampleLines| ensures '\n' !in SampleLines[k] {
      LacksNotIn(SampleLines[k], '\n');
    }
    assert SampleLines[14][27] == '!';
    FramedLines(SampleLines);
  }

  /** A text whose first line is trimmed and not empty has that line
      as its merchant. */
  lemma MerchantOfLines(text: string, ls: seq<string>)
    requires ReceiptLines(text) == ls && |ls| > 0 && ls[0] != [] && Trimmed(ls[0])
    ensures Merchant(text) == Some(ls[0])
  {
    StripOfTrimmed(ls[0]);
    FirstNonBlankFirst(ls, 0);
  }

  /** The first line of the sample is trimmed and not empty. */
  lemma MerchantLine(s: string)
    requires s == "ACME Office Supplies"
    ensures s != [] && Trimmed(s)
  {
    assert s[0] == 'A' && s[|s| - 1] == 's';
  }

  /** The merchant of the sample, regex_parser.py:107. */
  lemma SampleMerchant()
    ensures Merchant(Sample) == Some("ACME Office Supplies")
  {
    SampleReceiptLines();
    MerchantLine(SampleLines[0]);
    MerchantOfLines(Sample, SampleLines);
  }


  // The total, `TOTAL:\s*\$(\d+\.\d+)`.

  /** A label that has a character the text before it lacks, and not
      the character that text ends with, starts nowhere in that text. */
  lemma NoLabelBefore(p: string, r: string, lab: string, q: nat)
    requires q < |lab| && lab[q] !in p
    requires |p| > 0 && p[|p| - 1] !in lab
    ensures forall j: nat | j < |p| :: !LabelAt(p + r, j, lab)
  {
    var s := p + r;
    forall j: nat | j < |p| ensures !LabelAt(s, j, lab) {
      if j + |lab| <= |s| {
        if j + q < |p| {
          assert s[j..j + |lab|][q] == p[j + q];
        } else {
          assert s[j..j + |lab|][|p| - 1 - j] == p[|p| - 1];
        }
      }
    }
  }

  /** With no label before it, a labelled amount shape is the first. */
  lemma FirstAmountFrom(s: string, l: string, i: nat, d: nat, e: nat)
    requires LabelledAmountShape(s, i, l, d, e)
    requires forall j: nat | j < i :: !LabelAt(s, j, l)
    ensures FirstAmountShape(s, i, l, d, e)
  {
  }

  /** `TOTAL: $71.81` on a line of its own, after text without an
      upper-case `L`: where its pieces are. */
  lemma TotalLineText(p: string, q: string)
    requires |p| > 0 && p[|p| - 1] == '\n' && 'L' !in p
    requires |q| > 0 && q[0] == '\n'
    ensures var s := p + "TOTAL: $71.81" + q;
      var t := |p|;
      && (forall j: nat | j < t :: !LabelAt(s, j, "TOTAL:"))
      && LabelAt(s, t, "TOTAL:") && SpaceAt(s, t + 6) && s[t + 7] == '$'
      && DigitAt(s, t + 8) && DigitAt(s, t + 9) && !DigitAt(s, t + 10)
      && s[t + 10] == '.' && DigitAt(s, t + 11) && DigitAt(s, t + 12) && !DigitAt(s, t + 13)
      && s[t + 8..t + 13] == "71" + "." + "81"
  {
    var m := "TOTAL: $71.81";
    var r := m + q;
    var s := p + r;
    var t := |p|;
    assert r[..6] == "TOTAL:" && r[8..13] == "71" + "." + "81";
    assert SpaceAt(r, 6) && r[7] == '$';
    assert DigitAt(r, 8) && DigitAt(r, 9) && !DigitAt(r, 10);
    assert r[10] == '.' && DigitAt(r, 11) && DigitAt(r, 12) && !DigitAt(r, 13);
    assert p + m + q == s;
    NoLabelBefore(p, r, "TOTAL:", 4);
    assert s[t..t + 6] == r[..6];
    assert s[t + 8..t + 13] == r[8..13];
  }

  /** The first `TOTAL:` followed by `$71.81` gives the total 71.81. */
  lemma TotalFromText(s: string, t: nat)
    requires forall j: nat | j < t :: !LabelAt(s, j, "TOTAL:")
    requires LabelAt(s, t, "TOTAL:") && t + 13 < |s| && SpaceAt(s, t + 6) && s[t + 7] == '$'
    requires DigitAt(s, t + 8) && DigitAt(s, t + 9) && !DigitAt(s, t + 10)
    requires s[t + 10] == '.' && DigitAt(s, t + 11) && DigitAt(s, t + 12) && !DigitAt(s, t + 13)
    requires s[t + 8..t + 13] == "71" + "." + "81"
    ensures FindAmount(s, LabelledAmount("TOTAL:")) == Some(71.81)
  {
    SkipDigitsStops(s, t + 8, t + 10);
    assert DecimalAt(s, t + 8, t + 13);
    FirstAmountFrom(s, "TOTAL:", t, t + 7, t + 13);
    FindAmountFirst(s, "TOTAL:", t, t + 7, t + 13);
    Value7181();
    ReadAmountIs(s, Group(t + 8, t + 13), "71", "81");
  }

  /** The total line among lines with no upper-case `L` before it. */
  lemma TotalOfLines(ls: seq<string>, n: nat)
    requires 1 <= n < |ls| - 1 && ls[n] == "TOTAL: $71.81"
    requires forall k | 0 <= k < n :: 'L' !in ls[k]
    ensures FindAmount("\n" + JoinLines(ls) + "\n", LabelledAmount("TOTAL:")) == Some(71.81)
  {
    FramedAround(ls, n);
    assert forall k | 0 <= k < |ls[..n]| :: ls[..n][k] == ls[k];
    JoinLinesAvoids(ls[..n], 'L');
    var p := "\n" + JoinLines(ls[..n]) + "\n";
    var q := "\n" + JoinLines(ls[n + 1..]) + "\n";
    TotalLineText(p, q);
    TotalFromText(p + "TOTAL: $71.81" + q, |p|);
  }

  /** No upper-case `L` in the lines before the total, in three groups. */
  lemma NoCapitalLTop()
    ensures Lacks(SampleLines[0], 'L') && Lacks(SampleLines[1], 'L') && Lacks(SampleLines[2], 'L')
    ensures Lacks(SampleLines[3], 'L') && Lacks(SampleLines[4], 'L') && Lacks(SampleLines[5], 'L')
  {
  }

  lemma NoCapitalLItems()
    ensures Lacks(SampleLines[6], 'L') && Lacks(SampleLines[7], 'L') && Lacks(SampleLines[8], 'L')
  {
  }

  lemma NoCapitalLAmounts()
    ensures Lacks(SampleLines[9], 'L') && Lacks(SampleLines[10], 'L') && Lacks(SampleLines[11], 'L')
  {
  }

  /** No line before the total holds an upper-case `L`. */
  lemma NoCapitalL()
    ensures forall k | 0 <= k < 12 :: Lacks(SampleLines[k], 'L')
  {
    NoCapitalLTop();
    NoCapitalLItems();
    NoCapitalLAmounts();
  }

  /** The total of the sample, regex_parser.py:108. */
  lemma SampleTotal()
    ensures FindAmount(Sample, LabelledAmount("TOTAL:")) == Some(71.81)
  {
    NoCapitalL();
    LacksNone(SampleLines, 'L', 12);
    TotalOfLines(SampleLines, 12);
  }

  // The items, `-\s*(.+?)\s*\.\.\.\s*\$(\d+\.\d+)` on each dash line.

  /** A line whose first character is neither white space nor a dash,
      or an empty line, is not an item line. */
  lemma NotDashLine(line: string)
    requires line == [] || (!IsSpace(line[0]) && line[0] != '-')
    ensures LineItem(line).None?
  {
    if line != [] {
      assert !SpaceAt(line, 0);
      assert Strip(line)[0] == line[0];
    }
  }

  /** A trimmed line that opens with `- ` and a description without
      breaks, ending where an item tail starts, yields an item. */
  lemma DashLineItem(s: string, b: nat, w: nat, d: nat, e: nat)
    requires 2 < b && 2 < |s| && s[0] == '-' && SpaceAt(s, 1) && !SpaceAt(s, 2)
    requires !SpaceAt(s, |s| - 1) && Lacks(s, '\n')
    requires TailShape(s, b, w, d, e)
    ensures LineItem(s).Some?
  {
    StripOfTrimmed(s);
    assert IsDashLine(s);
    assert SpacesIn(s, 1, 2) && NoBreakIn(s, 2, b);
    ItemTailComplete(s, b, w, d, e);
    assert ItemShape(s, 0, 2, b);
    LineItemNone(s);
  }

  /** `\s*\.\.\.\s*\$` then an amount with `n` whole digits and two
      decimals, starting at `b` and running to the end of `s`. */
  lemma TailAt(s: string, b: nat, n: nat)
    requires 1 <= n && b + 9 + n == |s|
    requires SpaceAt(s, b) && s[b + 1] == '.' && s[b + 2] == '.' && s[b + 3] == '.' && SpaceAt(s, b + 4)
    requires s[b + 5] == '$' && DigitsIn(s, b + 6, b + 6 + n) && s[b + 6 + n] == '.'
    requires DigitAt(s, b + 7 + n) && DigitAt(s, b + 8 + n)
    ensures TailShape(s, b, b + 1, b + 5, |s|)
  {
    assert s[b + 1..b + 4] == "...";
    assert SpacesIn(s, b + 4, b + 5);
    SkipDigitsStops(s, b + 6, b + 6 + n);
    assert DecimalAt(s, b + 6, |s|);
  }

  /** A line `- ` description ` ... $` amount, the amount with `n` whole
      digits and two decimals, the description ending at `b`. */
  predicate ItemLineAt(s: string, b: nat, n: nat) {
    && 2 < b && 1 <= n && b + 9 + n == |s|
    && s[0] == '-' && SpaceAt(s, 1) && !SpaceAt(s, 2) && Lacks(s, '\n')
    && SpaceAt(s, b) && s[b + 1] == '.' && s[b + 2] == '.' && s[b + 3] == '.' && SpaceAt(s, b + 4)
    && s[b + 5] == '$' && DigitsIn(s, b + 6, b + 6 + n) && s[b + 6 + n] == '.'
    && DigitAt(s, b + 7 + n) && DigitAt(s, b + 8 + n)
  }

  /** Every such line yields an item. */
  lemma ItemLineAtItem(s: string, b: nat, n: nat)
    requires ItemLineAt(s, b, n)
    ensures LineItem(s).Some?
  {
    TailAt(s, b, n);
    DashLineItem(s, b, b + 1, b + 5, |s|);
  }

  /** The three dash lines of the sample, each laid out as an item line. */
  lemma PaperLine(s: string)
    requires s == "- Paper (A4, 5 reams) ... $45.00"
    ensures ItemLineAt(s, 21, 2)
  {
    assert Lacks(s, '\n') && !SpaceAt(s, 2);
    assert DigitAt(s, 27) && DigitAt(s, 28);
  }

  lemma PensLine(s: string)
    requires s == "- Pens (Blue, pack of 12) ... $8.50"
    ensures ItemLineAt(s, 25, 1)
  {
    assert Lacks(s, '\n') && !SpaceAt(s, 2);
    assert DigitAt(s, 31);
  }

  lemma StaplerLine(s: string)
    requires s == "- Stapler ... $12.99"
    ensures ItemLineAt(s, 9, 2)
  {
    assert Lacks(s, '\n') && !SpaceAt(s, 2);
    assert DigitAt(s, 15) && DigitAt(s, 16);
  }

  /** Empty, or opening with a character that is neither white space
      nor a dash. */
  predicate PlainLine(line: string) {
    line == [] || (!IsSpace(line[0]) && line[0] != '-')
  }

  /** Plain lines around a run of item lines: one item per line of the
      run. */
  lemma PlainAround(ls: seq<string>, a: nat, b: nat)
    requires a <= b <= |ls|
    requires forall k | 0 <= k < a :: PlainLine(ls[k])
    requires forall k | a <= k < b :: LineItem(ls[k]).Some?
    requires forall k | b <= k < |ls| :: PlainLine(ls[k])
    ensures |ItemsOf(ls)| == b - a
  {
    forall k | 0 <= k < a ensures LineItem(ls[k]).None? {
      NotDashLine(ls[k]);
    }
    forall k | b <= k < |ls| ensures LineItem(ls[k]).None? {
      NotDashLine(ls[k]);
    }
    FilterMapRun(LineItem, ls, a, b);
  }

  /** Three item lines with plain lines around them. */
  lemma PlainAroundThree(ls: seq<string>, a: nat, b1: nat, n1: nat, b2: nat, n2: nat, b3: nat, n3: nat)
    requires a + 3 <= |ls|
    requires forall k | 0 <= k < a :: PlainLine(ls[k])
    requires ItemLineAt(ls[a], b1, n1) && ItemLineAt(ls[a + 1], b2, n2) && ItemLineAt(ls[a + 2], b3, n3)
    requires forall k | a + 3 <= k < |ls| :: PlainLine(ls[k])
    ensures |ItemsOf(ls)| == 3
  {
    ItemLineAtItem(ls[a], b1, n1);
    ItemLineAtItem(ls[a + 1], b2, n2);
    ItemLineAtItem(ls[a + 2], b3, n3);
    forall k | a <= k < a + 3 ensures LineItem(ls[k]).Some? {
      if k == a + 2 {
      } else if k == a + 1 {
      } else {
        assert k == a;
      }
    }
    PlainAround(ls, a, a + 3);
  }

  /** Every line of the sample other than the dash lines is plain. */
  lemma SamplePlainLines()
    ensures forall k | 0 <= k < 6 :: PlainLine(SampleLines[k])
    ensures forall k | 9 <= k < 15 :: PlainLine(SampleLines[k])
  {
  }

  /** The three dash lines of the sample, each with where its
      description ends and how many whole digits its amount has. */
  lemma SampleItemLines()
    ensures ItemLineAt(SampleLines[6], 21, 2)
    ensures ItemLineAt(SampleLines[7], 25, 1)
    ensures ItemLineAt(SampleLines[8], 9, 2)
  {
    PaperLine(SampleLines[6]);
    PensLine(SampleLines[7]);
    StaplerLine(SampleLines[8]);
  }

  /** The item count of the sample, regex_parser.py:109. */
  lemma SampleItemCount()
    ensures |ItemsOf(ReceiptLines(Sample))| == 3
  {
    SampleReceiptLines();
    SamplePlainLines();
    SampleItemLines();
    PlainAroundThree(SampleLines, 6, 21, 2, 25, 1, 9, 2);
  }

  /** The three assertions of regex_parser.py:107-109 about the parse of
      the sample. */
  lemma SampleChecks()
    ensures ParseReceipt(Sample).merchant == Some("ACME Office Supplies")
    ensures ParseReceipt(Sample).total == Some(71.81)
    ensures |ParseReceipt(Sample).items| == 3
  {
    SampleMerchant();
    SampleTotal();
    SampleItemCount();
  }
}
