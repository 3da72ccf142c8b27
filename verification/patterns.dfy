/** The six regular expressions of parsers/regex_parser.py, each written
    out as the backtracking search Python's `re` engine performs on it.
    Two scans do all the backtracking: `FirstSome` tries positions from
    left to right (how `re.search` moves its start and how a lazy `.*?`
    or `(.+?)` grows), `LastSome` tries them from right to left (how a
    greedy `\s*` gives characters back). Their contracts say which
    position they settle on; the lemmas in `PatternShapes` say what a
    match of each pattern looks like. */
module Patterns {
  import opened Wrappers
  import opened Text
  import opened Decimal

  /** The first position `k` from `i` up to `hi` where `f` succeeds,
      with what it returned there. */
  function FirstSome<T>(f: nat -> Option<T>, i: nat, hi: nat): (r: Option<(nat, T)>)
    ensures r.Some? ==> i <= r.value.0 <= hi && f(r.value.0) == Some(r.value.1)
    ensures r.Some? ==> forall j | i <= j < r.value.0 :: f(j).None?
    ensures r.None? ==> forall j | i <= j <= hi :: f(j).None?
    decreases hi + 1 - i
  {
    if i > hi then None
    else
      match f(i)
      case Some(v) => Some((i, v))
      case None => FirstSome(f, i + 1, hi)
  }

  /** A position where `f` succeeds, with no success before it, is the
      one `FirstSome` settles on. */
  lemma {:induction false} FirstSomeAt<T>(f: nat -> Option<T>, i: nat, hi: nat, k: nat)
    requires i <= k <= hi && f(k).Some?
    requires forall j | i <= j < k :: f(j).None?
    ensures FirstSome(f, i, hi) == Some((k, f(k).value))
    decreases k - i
  {
    if i < k {
      FirstSomeAt(f, i + 1, hi, k);
    }
  }

  /** The last position `k` from `a` down to `lo` where `f` succeeds,
      with what it returned there. */
  function LastSome<T>(f: nat -> Option<T>, lo: nat, a: nat): (r: Option<(nat, T)>)
    requires lo <= a
    ensures r.Some? ==> lo <= r.value.0 <= a && f(r.value.0) == Some(r.value.1)
    ensures r.Some? ==> forall j | r.value.0 < j <= a :: f(j).None?
    ensures r.None? ==> forall j | lo <= j <= a :: f(j).None?
    decreases a
  {
    match f(a)
    case Some(v) => Some((a, v))
    case None => if a == lo then None else LastSome(f, lo, a - 1)
  }

  /** A capture group: the slice `s[start..end]`. */
  datatype Group = Group(start: nat, end: nat)

  predicate InBounds(s: string, g: Group) {
    g.start <= g.end <= |s|
  }

  function GroupText(s: string, g: Group): string
    requires InBounds(s, g)
  {
    s[g.start..g.end]
  }

  /** A successful `re.search`: where the match starts, and its groups. */
  datatype Match = Match(start: nat, groups: seq<Group>)

  /** The patterns of parsers/regex_parser.py:30-57.
      `LabelledText(l)` is `l\s*(.+)`, `LabelledAmount(l)` is
      `l\s*\$(\d+\.\d+)`, `TaxAmount` is `Tax.*?:\s*\$(\d+\.\d+)` and
      `ItemLine` is `-\s*(.+?)\s*\.\.\.\s*\$(\d+\.\d+)`. */
  datatype Pattern =
    | LabelledText(name: string)
    | LabelledAmount(name: string)
    | TaxAmount
    | ItemLine

  /** How many groups a successful match of `pat` captures. */
  function Arity(pat: Pattern): nat {
    if pat.ItemLine? then 2 else 1
  }

  /** `s[i..e]` is exactly `\d+\.\d+`: a run of digits, a point, at
      least one more digit and nothing else. */
  predicate DecimalAt(s: string, i: nat, e: nat)
    requires i <= e <= |s|
  {
    var p := SkipDigits(s, i);
    i < p && p + 1 < e && s[p] == '.' && DigitsIn(s, p + 1, e)
  }

  /** The text of a decimal match is a decimal. */
  lemma DecimalAtText(s: string, i: nat, e: nat)
    requires i <= e <= |s| && DecimalAt(s, i, e)
    ensures IsDecimalText(s[i..e])
  {
    var p := SkipDigits(s, i);
    var t := s[i..e];
    forall k | 0 <= k < |t| && k != p - i ensures DigitAt(t, k) {
      assert t[k] == s[i + k] && DigitAt(s, i + k);
    }
    assert t[p - i] == '.';
    SkipDigitsStops(t, 0, p - i);
  }

  /** `\d+\.\d+` at `i`: the end of the match, as far as the digits go. */
  function NumberAt(s: string, i: nat): (r: Option<nat>)
    requires i <= |s|
    ensures r.Some? ==> i < r.value <= |s| && DecimalAt(s, i, r.value)
    ensures r.Some? ==> r.value == |s| || !DigitAt(s, r.value)
  {
    var p := SkipDigits(s, i);
    if p == i || p == |s| || s[p] != '.' then None
    else
      var e := SkipDigits(s, p + 1);
      if e == p + 1 then None else Some(e)
  }

  /** `\s*\$(\d+\.\d+)` at `i`: the amount group, just after the `$`. */
  function AmountAt(s: string, i: nat): (r: Option<Group>)
    requires i <= |s|
    ensures r.Some? ==> i < r.value.start <= |s| && SpacesIn(s, i, r.value.start - 1)
    ensures r.Some? ==> s[r.value.start - 1] == '$' && NumberAt(s, r.value.start) == Some(r.value.end)
  {
    var d := SkipSpaces(s, i);
    if d < |s| && s[d] == '$' then
      match NumberAt(s, d + 1)
      case None => None
      case Some(e) => Some(Group(d + 1, e))
    else
      None
  }

  /** `:\s*\$(\d+\.\d+)` at `k`. */
  function ColonAmount(s: string, k: nat): (r: Option<Group>)
    ensures r.Some? ==> k < |s| && s[k] == ':' && AmountAt(s, k + 1) == r
  {
    if k < |s| && s[k] == ':' then AmountAt(s, k + 1) else None
  }

  /** `(.+)` at `j`: a non-empty rest of the line, ending at the break. */
  function LineFrom(s: string, j: nat): (r: Option<nat>)
    ensures r.Some? ==> j < |s| && !BreakAt(s, j) && r.value == LineEnd(s, j)
  {
    if j < |s| && !BreakAt(s, j) then Some(LineEnd(s, j)) else None
  }

  /** `LineFrom` at every position, the function the greedy `\s*` of a
      text pattern scans. */
  function LinesFrom(s: string): nat -> Option<nat> {
    (j: nat) => LineFrom(s, j)
  }

  /** `\s*(.+)` at `p`: the greedy `\s*` takes the whole run of white
      space and gives it back one character at a time until `(.+)` can
      start. The group runs to the end of its line. */
  function RestOfLine(s: string, p: nat): (r: Option<Group>)
    requires p <= |s|
    ensures r.Some? ==> p <= r.value.start < r.value.end <= |s| && SpacesIn(s, p, r.value.start)
    ensures r.Some? ==> r.value.end == LineEnd(s, r.value.start)
  {
    match LastSome(LinesFrom(s), p, SkipSpaces(s, p))
    case None => None
    case Some((j, e)) => Some(Group(j, e))
  }

  /** `\s*\.\.\.\s*\$(\d+\.\d+)` at `b`: the amount group of an item. */
  function ItemTail(s: string, b: nat): (r: Option<Group>)
    ensures r.Some? ==> b + 3 < r.value.start <= |s|
  {
    if b > |s| then None
    else
      var w := SkipSpaces(s, b);
      if LabelAt(s, w, "...") then AmountAt(s, w + 3) else None
  }

  /** `ItemTail` at every position, the function the lazy description
      scans. */
  function Tails(s: string): nat -> Option<Group> {
    (b: nat) => ItemTail(s, b)
  }

  /** `(.+?)` at `a` followed by the item tail: the lazy group tries the
      ends `a + 1`, `a + 2`, ... as long as it stays on the line of `a`.
      The end of the description and the amount group. */
  function ShortestDesc(s: string, a: nat): (r: Option<(nat, Group)>)
    ensures r.Some? ==> a < |s| && a < r.value.0 <= LineEnd(s, a) && ItemTail(s, r.value.0) == Some(r.value.1)
  {
    if a < |s| then FirstSome(Tails(s), a + 1, LineEnd(s, a)) else None
  }

  /** `ShortestDesc` at every position, the function the greedy `\s*`
      after the dash scans. */
  function Descs(s: string): nat -> Option<(nat, Group)> {
    (a: nat) => ShortestDesc(s, a)
  }

  /** The item pattern at `i`: description group, then amount group. The
      greedy `\s*` after the dash is cut back from the end of the white
      space run until the description can start. */
  function ItemAt(s: string, i: nat): (r: Option<seq<Group>>)
    ensures r.Some? ==> |r.value| == 2 && i < |s| && s[i] == '-'
    ensures r.Some? ==> i < r.value[0].start < r.value[0].end <= |s| && SpacesIn(s, i + 1, r.value[0].start)
    ensures r.Some? ==> r.value[0].end <= LineEnd(s, r.value[0].start)
    ensures r.Some? ==> ItemTail(s, r.value[0].end) == Some(r.value[1])
    ensures r.Some? ==> InBounds(s, r.value[1]) && DecimalAt(s, r.value[1].start, r.value[1].end)
  {
    if i < |s| && s[i] == '-' then
      match LastSome(Descs(s), i + 1, SkipSpaces(s, i + 1))
      case None => None
      case Some((a, (b, g))) => Some([Group(a, b), g])
    else
      None
  }

  /** `l\s*(.+)` at `i`. */
  function TextMatchAt(s: string, i: nat, l: string): (r: Option<Group>)
    ensures r.Some? ==> LabelAt(s, i, l) && RestOfLine(s, i + |l|) == r && InBounds(s, r.value)
  {
    if LabelAt(s, i, l) then RestOfLine(s, i + |l|) else None
  }

  /** `l\s*\$(\d+\.\d+)` at `i`. */
  function AmountMatchAt(s: string, i: nat, l: string): (r: Option<Group>)
    ensures r.Some? ==> LabelAt(s, i, l) && AmountAt(s, i + |l|) == r && InBounds(s, r.value)
    ensures r.Some? ==> DecimalAt(s, r.value.start, r.value.end)
  {
    if LabelAt(s, i, l) then AmountAt(s, i + |l|) else None
  }

  /** `ColonAmount` at every position, the function the lazy `.*?` of the
      tax pattern scans. */
  function ColonAmounts(s: string): nat -> Option<Group> {
    (k: nat) => ColonAmount(s, k)
  }

  /** The colon the lazy `.*?` of the tax pattern stops at, when the
      label ends at `c`: the first colon on that line an amount follows. */
  function TaxColon(s: string, c: nat): (r: Option<(nat, Group)>)
    requires c <= |s|
    ensures r.Some? ==> c <= r.value.0 <= LineEnd(s, c) && ColonAmount(s, r.value.0) == Some(r.value.1)
    ensures r.Some? ==> forall k | c <= k < r.value.0 :: ColonAmount(s, k).None?
    ensures r.None? ==> forall k | c <= k <= LineEnd(s, c) :: ColonAmount(s, k).None?
  {
    var f := ColonAmounts(s);
    var r := FirstSome(f, c, LineEnd(s, c));
    assert forall k | c <= k <= LineEnd(s, c) :: f(k) == ColonAmount(s, k);
    r
  }

  /** `Tax.*?:\s*\$(\d+\.\d+)` at `i`. */
  function TaxMatchAt(s: string, i: nat): (r: Option<Group>)
    ensures r.Some? ==> LabelAt(s, i, "Tax") && InBounds(s, r.value)
    ensures r.Some? ==> DecimalAt(s, r.value.start, r.value.end)
  {
    if LabelAt(s, i, "Tax") then
      match TaxColon(s, i + 3)
      case None => None
      case Some((_, g)) => Some(g)
    else
      None
  }

  function Single(g: Option<Group>): Option<seq<Group>> {
    match g
    case None => None
    case Some(x) => Some([x])
  }

  /** Whether, and with which groups, `pat` matches starting exactly at `i`. */
  function MatchAt(s: string, i: nat, pat: Pattern): (r: Option<seq<Group>>)
    ensures r.Some? ==> i <= |s| && |r.value| == Arity(pat) && InBounds(s, r.value[0])
    ensures r.Some? && (pat.LabelledAmount? || pat.TaxAmount?) ==> DecimalAt(s, r.value[0].start, r.value[0].end)
    ensures r.Some? && pat.ItemLine? ==> InBounds(s, r.value[1]) && DecimalAt(s, r.value[1].start, r.value[1].end)
  {
    match pat
    case LabelledText(l) => Single(TextMatchAt(s, i, l))
    case LabelledAmount(l) => Single(AmountMatchAt(s, i, l))
    case TaxAmount => Single(TaxMatchAt(s, i))
    case ItemLine => ItemAt(s, i)
  }

  /** `MatchAt` at every position, the function `re.search` scans. */
  function Matcher(s: string, pat: Pattern): nat -> Option<seq<Group>> {
    (k: nat) => MatchAt(s, k, pat)
  }

  /** `re.search(pat, s)`: the leftmost position where `pat` matches. */
  function Search(s: string, pat: Pattern): (r: Option<Match>)
    ensures r.Some? ==> r.value.start <= |s| && MatchAt(s, r.value.start, pat) == Some(r.value.groups)
  {
    match FirstSome(Matcher(s, pat), 0, |s|)
    case None => None
    case Some((k, gs)) => Some(Match(k, gs))
  }
}
