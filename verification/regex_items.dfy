/** The line items of parsers/regex_parser.py:55-64: every line that
    starts with a dash once stripped is searched for
    `-\s*(.+?)\s*\.\.\.\s*\$(\d+\.\d+)`, and each match gives one item,
    in line order. */
module RegexItems {
  import opened Wrappers
  import opened Text
  import opened Decimal
  import opened Patterns
  import opened PatternShapes
  import opened Receipt
  import opened RegexParser

  /** The item shape the search settles on: no shape starts at an earlier
      dash, none at this dash has its description start later, and none
      from the same start ends its description earlier. */
  ghost predicate ChosenItem(s: string, i: nat, a: nat, b: nat) {
    ItemShape(s, i, a, b)
    && (forall j: nat, a': nat, b': nat | j < i :: !ItemShape(s, j, a', b'))
    && (forall a': nat, b': nat | a < a' :: !ItemShape(s, i, a', b'))
    && (forall b': nat | b' < b :: !ItemShape(s, i, a, b'))
  }

  /** The item pattern matches at `i` exactly when an item shape starts
      there. */
  lemma ItemAtIff(s: string, i: nat)
    ensures MatchAt(s, i, ItemLine).Some? <==> exists a: nat, b: nat :: ItemShape(s, i, a, b)
  {
    if MatchAt(s, i, ItemLine).Some? {
      ItemMatchSound(s, i);
    }
    if exists a: nat, b: nat :: ItemShape(s, i, a, b) {
      var a: nat, b: nat :| ItemShape(s, i, a, b);
      ItemMatchComplete(s, i, a, b);
    }
  }

  /** At a dash, the chosen shape is the one the item pattern captures. */
  lemma ItemAtChosen(s: string, i: nat, a: nat, b: nat)
    requires ItemShape(s, i, a, b)
    requires forall a': nat, b': nat | a < a' :: !ItemShape(s, i, a', b')
    requires forall b': nat | b' < b :: !ItemShape(s, i, a, b')
    ensures ItemAt(s, i).Some? && ItemAt(s, i).value[0] == Group(a, b)
  {
    ItemMatchComplete(s, i, a, b);
    ItemMatchSound(s, i);
  }

  /** `re.search` of the item pattern settles on the chosen shape, and
      its second group is the amount of the tail after the description. */
  lemma SearchItemChosen(s: string, i: nat, a: nat, b: nat, d: nat, e: nat)
    requires ChosenItem(s, i, a, b)
    requires TailShape(s, b, SkipSpaces(s, b), d, e)
    ensures Search(s, ItemLine) == Some(Match(i, [Group(a, b), Group(d + 1, e)]))
  {
    ItemAtChosen(s, i, a, b);
    ItemTailValue(s, b, d, e);
    assert MatchAt(s, i, ItemLine) == Some([Group(a, b), Group(d + 1, e)]);
    forall j | 0 <= j < i ensures MatchAt(s, j, ItemLine).None? {
      ItemAtIff(s, j);
    }
    SearchFirst(s, ItemLine, i);
  }

  /** The item a shape denotes: the description stripped and the amount
      of the tail after it. */
  function ShapeItem(s: string, a: nat, b: nat, d: nat, e: nat): Item
    requires a <= b <= |s| && d < e <= |s| && DecimalAt(s, d + 1, e)
  {
    Item(Strip(s[a..b]), ReadAmount(s, Group(d + 1, e)))
  }

  /** `it` is the item of the chosen shape of `s`. */
  ghost predicate ChosenItemIs(s: string, it: Item) {
    exists i: nat, a: nat, b: nat, d: nat, e: nat ::
      && ChosenItem(s, i, a, b)
      && TailShape(s, b, SkipSpaces(s, b), d, e)
      && it == ShapeItem(s, a, b, d, e)
  }

  /** A dash line yields the item of its chosen shape. */
  lemma LineItemChosen(line: string, i: nat, a: nat, b: nat, d: nat, e: nat)
    requires IsDashLine(line) && ChosenItem(line, i, a, b)
    requires TailShape(line, b, SkipSpaces(line, b), d, e)
    ensures LineItem(line) == Some(ShapeItem(line, a, b, d, e))
  {
    SearchItemChosen(line, i, a, b, d, e);
  }

  /** A match of the item pattern with none before it has the chosen
      shape. */
  lemma ItemMatchChosen(s: string, i: nat)
    requires ItemAt(s, i).Some?
    requires forall j | 0 <= j < i :: MatchAt(s, j, ItemLine).None?
    ensures var g := ItemAt(s, i).value[0];
      ChosenItem(s, i, g.start, g.end)
  {
    var g := ItemAt(s, i).value[0];
    ItemMatchSound(s, i);
    forall j: nat, a': nat, b': nat | j < i ensures !ItemShape(s, j, a', b') {
      ItemAtIff(s, j);
    }
    forall a': nat, b': nat | g.start < a' ensures !ItemShape(s, i, a', b') {
      if ItemShape(s, i, a', b') {
        ItemMatchComplete(s, i, a', b');
      }
    }
    forall b': nat | b' < g.end ensures !ItemShape(s, i, g.start, b') {
      if ItemShape(s, i, g.start, b') {
        ItemMatchComplete(s, i, g.start, b');
      }
    }
  }

  /** The chosen shape, with the amount its tail captures, gives the
      item of the groups. */
  lemma ChosenItemOf(s: string, i: nat, g: Group, h: Group)
    requires ChosenItem(s, i, g.start, g.end) && ItemTail(s, g.end) == Some(h)
    requires InBounds(s, g) && InBounds(s, h) && DecimalAt(s, h.start, h.end)
    ensures ChosenItemIs(s, Item(Strip(GroupText(s, g)), ReadAmount(s, h)))
  {
    ItemTailSound(s, g.end);
    assert TailShape(s, g.end, SkipSpaces(s, g.end), h.start - 1, h.end);
    assert Group(h.start - 1 + 1, h.end) == h;
    assert Item(Strip(GroupText(s, g)), ReadAmount(s, h)) == ShapeItem(s, g.start, g.end, h.start - 1, h.end);
  }

  /** The shape `re.search` of the item pattern settles on is the chosen
      one, and the item its groups give is that shape's item. */
  lemma SearchItemIsChosen(s: string)
    requires Search(s, ItemLine).Some?
    ensures var m := Search(s, ItemLine).value;
      ChosenItemIs(s, Item(Strip(GroupText(s, m.groups[0])), ReadAmount(s, m.groups[1])))
  {
    var m := Search(s, ItemLine).value;
    var i := m.start;
    assert MatchAt(s, i, ItemLine) == Some(m.groups);
    assert ItemAt(s, i) == Some(m.groups);
    SearchLeftmost(s, ItemLine);
    ItemMatchChosen(s, i);
    ChosenItemOf(s, i, m.groups[0], m.groups[1]);
  }

  /** Only a line that starts with a dash once stripped yields an item. */
  lemma LineItemDash(line: string)
    requires LineItem(line).Some?
    ensures IsDashLine(line) && Search(line, ItemLine).Some?
  {
  }

  /** Every item a line yields comes from a dash line and its chosen
      shape. */
  lemma LineItemSound(line: string)
    requires LineItem(line).Some?
    ensures IsDashLine(line) && ChosenItemIs(line, LineItem(line).value)
  {
    LineItemDash(line);
    SearchItemIsChosen(line);
  }

  /** A line yields no item exactly when it does not start with a dash
      once stripped, or no item shape appears in it. */
  lemma LineItemNone(line: string)
    ensures LineItem(line).None? <==>
      !IsDashLine(line) || forall i: nat, a: nat, b: nat :: !ItemShape(line, i, a, b)
  {
    SearchIff(line, ItemLine);
    if LineItem(line).Some? {
      var i := Search(line, ItemLine).value.start;
      ItemAtIff(line, i);
    } else if IsDashLine(line) {
      forall i: nat, a: nat, b: nat ensures !ItemShape(line, i, a, b) {
        if ItemShape(line, i, a, b) {
          ItemAtIff(line, i);
        }
      }
    }
  }

  /** An item's description is stripped, holds no line break, and its
      amount is never negative. */
  lemma LineItemFacts(line: string)
    requires LineItem(line).Some?
    ensures Trimmed(LineItem(line).value.description)
    ensures '\n' !in LineItem(line).value.description
    ensures LineItem(line).value.amount >= 0.0
  {
    LineItemSound(line);
    ChosenItemFacts(line, LineItem(line).value);
  }

  /** The item of a chosen shape has a stripped description without a
      line break and an amount that is not negative. */
  lemma ChosenItemFacts(s: string, it: Item)
    requires ChosenItemIs(s, it)
    ensures Trimmed(it.description) && '\n' !in it.description && it.amount >= 0.0
  {
    var i: nat, a: nat, b: nat, d: nat, e: nat :|
      && ChosenItem(s, i, a, b)
      && TailShape(s, b, SkipSpaces(s, b), d, e)
      && it == ShapeItem(s, a, b, d, e);
    ReadAmountNonNegative(s, Group(d + 1, e));
    StripInside(s, a, b);
  }

  /** Stripping a slice with no line break leaves none. */
  lemma StripInside(s: string, a: nat, b: nat)
    requires a <= b <= |s| && NoBreakIn(s, a, b)
    ensures '\n' !in Strip(s[a..b])
  {
    var t := s[a..b];
    forall k | 0 <= k < |t| ensures t[k] != '\n' {
      assert !BreakAt(s, a + k);
    }
    StripKeepsOut(t, '\n');
  }

  /** Only dash lines yield items, so there are no more items than dash
      lines. */
  lemma {:induction false} ItemsOfDashCount(lines: seq<string>)
    ensures |ItemsOf(lines)| <= DashCount(lines)
    decreases |lines|
  {
    if |lines| > 0 {
      ItemsOfDashCount(lines[1..]);
      if LineItem(lines[0]).Some? {
        LineItemDash(lines[0]);
      }
    }
  }

  /** The items of two runs of lines are those of the first, then those
      of the second: each line contributes on its own, in line order. */
  lemma ItemsOfConcat(xs: seq<string>, ys: seq<string>)
    ensures ItemsOf(xs + ys) == ItemsOf(xs) + ItemsOf(ys)
  {
    FilterMapConcat(LineItem, xs, ys);
  }

  /** Every item comes from some line. */
  lemma ItemsOfSound(lines: seq<string>, n: nat)
    requires n < |ItemsOf(lines)|
    ensures exists k | 0 <= k < |lines| :: LineItem(lines[k]) == Some(ItemsOf(lines)[n])
  {
    FilterMapSound(LineItem, lines, n);
  }

  /** Every line that yields an item has it among the items. */
  lemma ItemsOfComplete(lines: seq<string>, k: nat)
    requires k < |lines| && LineItem(lines[k]).Some?
    ensures LineItem(lines[k]).value in ItemsOf(lines)
  {
    FilterMapComplete(LineItem, lines, k);
  }
}
