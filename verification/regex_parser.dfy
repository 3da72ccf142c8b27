/** `parse_receipt` of parsers/regex_parser.py:4-66: a total function from
    receipt text to a record, every field found by its own pattern and
    left `None` on its own when the pattern does not match. */
module RegexParser {
  import opened Wrappers
  import opened Text
  import opened Decimal
  import opened Patterns
  import opened Receipt

  /** The loop at regex_parser.py:24-27: the first line whose stripped
      form is not empty, stripped. */
  function FirstNonBlank(lines: seq<string>): (r: Option<string>)
    ensures r.None? <==> forall k | 0 <= k < |lines| :: AllSpace(lines[k])
    ensures r.Some? ==> r.value != [] && Trimmed(r.value)
  {
    if |lines| == 0 then None
    else if Strip(lines[0]) != [] then Some(Strip(lines[0]))
    else
      var r := FirstNonBlank(lines[1..]);
      assert forall k | 1 <= k < |lines| :: lines[k] == lines[1..][k - 1];
      r
  }

  /** `l\s*(.+)` searched in the text, the group stripped. */
  function FindText(text: string, l: string): Option<string> {
    match Search(text, LabelledText(l))
    case None => None
    case Some(m) => Some(Strip(GroupText(text, m.groups[0])))
  }

  /** `float(m.group(n))` for a matched `\d+\.\d+` group, read exactly. */
  function ReadAmount(s: string, g: Group): real
    requires InBounds(s, g) && DecimalAt(s, g.start, g.end)
  {
    DecimalAtText(s, g.start, g.end);
    ParseDecimal(GroupText(s, g))
  }

  /** Amounts are never negative: the pattern has no sign. */
  lemma ReadAmountNonNegative(s: string, g: Group)
    requires InBounds(s, g) && DecimalAt(s, g.start, g.end)
    ensures ReadAmount(s, g) >= 0.0
  {
    DecimalAtText(s, g.start, g.end);
    var t := GroupText(s, g);
    var p := SkipDigits(t, 0);
    DigitsInAll(t, 0, p);
    DigitsInAll(t, p + 1, |t|);
    assert t[0..p] == t[..p] && t[p + 1..|t|] == t[p + 1..];
    DecimalValueParts(t[..p], t[p + 1..]);
  }

  /** An amount pattern searched in the text, the group read as a number. */
  function FindAmount(text: string, pat: Pattern): Option<real>
    requires pat.LabelledAmount? || pat.TaxAmount?
  {
    match Search(text, pat)
    case None => None
    case Some(m) => Some(ReadAmount(text, m.groups[0]))
  }

  /** `line.strip().startswith('-')`. */
  predicate IsDashLine(line: string) {
    var t := Strip(line);
    |t| > 0 && t[0] == '-'
  }

  /** The body of the loop at regex_parser.py:55-64 for one line. */
  function LineItem(line: string): Option<Item> {
    if IsDashLine(line) then
      match Search(line, ItemLine)
      case None => None
      case Some(m) => Some(Item(Strip(GroupText(line, m.groups[0])), ReadAmount(line, m.groups[1])))
    else
      None
  }

  /** How many of the lines start with a dash once stripped. */
  function DashCount(lines: seq<string>): nat {
    if |lines| == 0 then 0
    else (if IsDashLine(lines[0]) then 1 else 0) + DashCount(lines[1..])
  }

  /** The items of all lines, in line order; only dash lines yield one. */
  function ItemsOf(lines: seq<string>): seq<Item> {
    FilterMap(LineItem, lines)
  }

  /** `receipt_text.strip().split('\n')`, regex_parser.py:21. */
  function ReceiptLines(text: string): (lines: seq<string>)
    ensures |lines| >= 1
  {
    Lines(Strip(text))
  }

  /** The merchant: the first non-blank line, regex_parser.py:24-27. */
  function Merchant(text: string): Option<string> {
    FirstNonBlank(ReceiptLines(text))
  }

  /** `parse_receipt(receipt_text)`: never fails, and tags the record.
      Each field is the search of its own pattern over the whole text, or
      over its lines for the merchant and the items; the lemmas of
      `RegexProperties` and `RegexItems` characterise those searches. */
  function ParseReceipt(text: string): (r: Record)
    ensures r.parserUsed == "regex"
    ensures r.merchant == Merchant(text)
    ensures r.date == FindText(text, "Date:") && r.invoiceNumber == FindText(text, "Invoice #:")
    ensures r.subtotal == FindAmount(text, LabelledAmount("Subtotal:"))
    ensures r.tax == FindAmount(text, TaxAmount)
    ensures r.total == FindAmount(text, LabelledAmount("TOTAL:"))
    ensures r.items == ItemsOf(ReceiptLines(text))
  {
    Record(
      merchant := Merchant(text),
      date := FindText(text, "Date:"),
      invoiceNumber := FindText(text, "Invoice #:"),
      items := ItemsOf(ReceiptLines(text)),
      subtotal := FindAmount(text, LabelledAmount("Subtotal:")),
      tax := FindAmount(text, TaxAmount),
      total := FindAmount(text, LabelledAmount("TOTAL:")),
      parserUsed := "regex")
  }
}
