# Receipt parser comparison — a Dafny model

The system turns the plain text of a receipt into a record: merchant,
date, invoice number, line items, subtotal, tax and total. It offers two
strategies:

- a rule-based parser, `parse_receipt` in `parsers/regex_parser.py`, which
  finds each field with its own regular expression and leaves it `None`
  when that expression does not match;
- a model-based parser, `parse_receipt` in `parsers/llm_parser.py`, which
  sends the text to a hosted language model and decodes its JSON reply,
  after removing a markdown code fence from it.

Two HTTP endpoints in `api.py` combine the strategies:

- `POST /parse` runs one strategy, or in `auto` mode tries the model
  first and falls back to the rules;
- `POST /compare` runs both strategies and, when both succeed, compares
  the merchant, the total and the item counts.

The model is pure and functional. Each of the six regular expressions is
written out as the backtracking search Python's `re` engine performs: the
leftmost start for `re.search`, the longest run for a greedy `\s*`, and
the shortest for a lazy `.*?` or `(.+?)`. A `...Shape` predicate then says
what a match looks like, with no search order in it. Lemmas prove that
each search finds a match exactly when a shape exists, and that they agree
on which match is chosen. Every field found by a regular expression is
characterised through these shapes; the merchant is characterised
through `Strip` and `Lines`. The sample receipt the rule-based
parser is written against (in comments at `parsers/regex_parser.py:70-86`)
is proved to give the three facts its self-check asserts.

The model-based parser is a function of three things: the API key, the
outcome of the remote call, and the JSON decoder. The endpoints are
modelled twice:

- as functions of what each parser did (`Api.Dispatch`, `Api.Compare`);
- as the endpoints proper (`Api.ParseEndpoint`, `Api.CompareEndpoint`).

An `HTTPException` is a `Failure` carrying its status code and detail. An
exception a parser raises is a `Failure` carrying its `str()`.

Modules: `Wrappers` (Option, Result, FilterMap), `Text` (`str.strip`,
`str.split('\n')`, the `\s`/`\d`/`.` classes), `Decimal` (the value of
`\d+\.\d+`), `Patterns` (the searches), `PatternShapes` (what a match
is), `Receipt` (the record), `RegexParser`, `RegexProperties`,
`RegexItems`, `RegexExamples`, `SampleReceipt`, `Fence`, `LlmParser` and
`Api`.

Four behaviours of the code worth knowing:

- `\s*` also matches line breaks, so when nothing follows `Date:` on its
  own line, the date is the next non-blank line
  (`RegexExamples.DateCrossesLine`). The same holds for the invoice
  number.
- `TOTAL:` has no word boundary in front of it, so it is also found
  inside `SUBTOTAL:`; a subtotal line above the total line gives the
  total (`RegexExamples.SubtotalReadAsTotal`).
- In auto mode, a fallback record keeps its own `parser_used` tag,
  `"regex"`. Only the response says `"regex_fallback"`
  (`Api.FallbackShape`, `Api.EndpointAnswers`).
- `\d+\.\d+` accepts any number of digits after the point.

## Model

| member | source | states |
|---|---|---|
| Text.Strip | parsers/regex_parser.py:21 | `str.strip()` gives a string with white space at neither end, no longer than its input, and empty exactly when the input is all white space |
| Text.StripFrame | parsers/llm_parser.py:50 | stripping white space from around a core that is already trimmed gives back exactly that core |
| Text.StripPad | parsers/regex_parser.py:25-26 | white space added at either end of a line does not change its stripped form |
| Text.Lines | parsers/regex_parser.py:21 | `split('\n')` gives at least one piece, and no piece holds a line break |
| Text.JoinLinesOfLines | parsers/regex_parser.py:21 | joining the pieces of `split('\n')` with breaks gives the text back |
| Text.LinesOfJoinLines | parsers/regex_parser.py:21 | splitting lines that have no breaks, once joined, gives those lines back |
| Text.NoBreakInLineEnd | parsers/regex_parser.py:30 | `.` matches a stretch exactly when the stretch does not pass the end of its line |
| Patterns.FirstSome | parsers/regex_parser.py:30 | the leftmost-first scan returns the first position that succeeds, and no earlier position succeeds |
| Patterns.LastSome | parsers/regex_parser.py:30 | the greedy scan returns the last position that succeeds, and no later position up to its start succeeds |
| Patterns.Search | parsers/regex_parser.py:30-57 | a successful `re.search` reports a position where the pattern matches, together with that match's groups |
| Patterns.TaxColon | parsers/regex_parser.py:50 | the lazy `.*?` stops at the first colon on the label's line that an amount follows, and none lies before it |
| Patterns.ItemAt | parsers/regex_parser.py:57 | an item match starts at a dash; its description is non-empty, lies on one line and is followed by the tail; its amount group is a decimal |
| PatternShapes.SearchIff | parsers/regex_parser.py:30 | `re.search` succeeds exactly when the pattern matches at some position, and nothing matches before the one it reports |
| PatternShapes.SearchFirst | parsers/regex_parser.py:30 | a position where the pattern matches, with no match before it, is the one `re.search` reports |
| PatternShapes.NumberAtComplete | parsers/regex_parser.py:40 | wherever `\d+\.\d+` can match, the greedy number is found and is at least as long |
| PatternShapes.AmountAtIff | parsers/regex_parser.py:40 | `\s*\$(\d+\.\d+)` matches exactly when white space, `$` and a decimal follow; what it captures is such a shape |
| PatternShapes.AmountAtComplete | parsers/regex_parser.py:40 | for every amount shape, the group captured is exactly that shape's number |
| PatternShapes.TaxMatchComplete | parsers/regex_parser.py:50 | the tax pattern matches wherever a tax shape exists, and stops at a colon no later than that shape's |
| PatternShapes.TaxMatchSound | parsers/regex_parser.py:50 | every tax match has the shape: the first colon on the label's line that an amount follows |
| PatternShapes.TextMatchComplete | parsers/regex_parser.py:30-37 | `l\s*(.+)` matches wherever a text shape exists, with a group that starts and ends no earlier than the shape's |
| PatternShapes.TextMatchSound | parsers/regex_parser.py:30-37 | every text match has the shape, its group runs to the end of its line, and no later start up to the end of the white space leaves a line for `.+` |
| PatternShapes.RestOfLineFrom | parsers/regex_parser.py:30 | the group starts at the last position within the white space from which a line goes on |
| PatternShapes.ItemTailIff | parsers/regex_parser.py:57 | `\s*\.\.\.\s*\$(\d+\.\d+)` matches exactly when a tail shape exists |
| PatternShapes.ItemMatchComplete | parsers/regex_parser.py:57 | the item pattern matches wherever an item shape exists; its description starts as late as possible and then ends as early as possible |
| PatternShapes.ItemMatchSound | parsers/regex_parser.py:57 | every item match has the shape, and neither a later start nor a shorter description would have matched |
| PatternShapes.ItemMatchHasDots | parsers/regex_parser.py:57 | every item match has `...` after its description |
| Decimal.DigitsValueBound | parsers/regex_parser.py:42 | a string of n digits denotes a number below 10^n |
| Decimal.DecimalValueParts | parsers/regex_parser.py:42 | an amount is never negative, and its integer part is the number before the point |
| Decimal.ParseDecimalOfParts | parsers/regex_parser.py:42 | digits, a point and digits form a decimal text, and reading it gives the exact value |
| RegexParser.FirstNonBlank | parsers/regex_parser.py:24-27 | no merchant exactly when every line is blank; otherwise the merchant is non-empty and stripped |
| RegexParser.ReceiptLines | parsers/regex_parser.py:21 | the text always splits into at least one line |
| RegexParser.ParseReceipt | parsers/regex_parser.py:4-66 | the rule-based parser returns a record for every text, tagged `regex`, each field being the search its own pattern and label make: the merchant of the lines, `Date:` and `Invoice #:` as text, `Subtotal:`, the tax and `TOTAL:` as amounts, and the items of the lines |
| RegexParser.ReadAmountNonNegative | parsers/regex_parser.py:42 | an amount read from a match is never negative |
| RegexProperties.FirstNonBlankFirst | parsers/regex_parser.py:24-27 | the first line that is not all white space, stripped, is the merchant |
| RegexProperties.MerchantIff | parsers/regex_parser.py:21-27 | there is no merchant exactly when the text is empty or all white space |
| RegexProperties.MerchantFirstLine | parsers/regex_parser.py:21-27 | otherwise the merchant is the line holding the first character that is not white space, stripped |
| RegexProperties.AmountMatchIff | parsers/regex_parser.py:40 | `l\s*\$(\d+\.\d+)` matches at a position exactly when a labelled amount shape starts there |
| RegexProperties.LabelledAmountIff | parsers/regex_parser.py:40-47 | the labelled amount pattern matches exactly when a labelled amount shape starts there, and its group is such a shape |
| RegexProperties.FindAmountFirst | parsers/regex_parser.py:40-47 | the first labelled amount shape in the text gives the total and subtotal value |
| RegexProperties.FindAmountSound | parsers/regex_parser.py:40-47 | every total or subtotal found is the amount of the first labelled amount shape |
| RegexProperties.FindAmountNone | parsers/regex_parser.py:40-47 | the total or subtotal is `None` exactly when no labelled amount shape exists |
| RegexProperties.TaxAtIff | parsers/regex_parser.py:50 | the tax pattern matches at a position exactly when a tax shape starts there |
| RegexProperties.TaxAtFirstColon | parsers/regex_parser.py:50 | the tax captured is the amount after the earliest colon that works |
| RegexProperties.FindTaxFirst | parsers/regex_parser.py:50-52 | the first tax shape, taking its earliest colon, gives the tax |
| RegexProperties.FindTaxSound | parsers/regex_parser.py:50-52 | every tax found is the amount of the first tax shape |
| RegexProperties.FindTaxNone | parsers/regex_parser.py:50-52 | the tax is `None` exactly when no tax shape exists |
| RegexProperties.TextAtIff | parsers/regex_parser.py:30-37 | the text pattern matches at a position exactly when a text shape starts there |
| RegexProperties.FindTextNone | parsers/regex_parser.py:29-38 | the date or invoice number is `None` exactly when no text shape exists |
| RegexProperties.FindTextSound | parsers/regex_parser.py:29-38 | every value found is the stripped rest of a line after the first label that some line follows; that line may lie below the label's own |
| RegexProperties.FindTextFirst | parsers/regex_parser.py:29-38 | after the first such label, the last position the white space reaches from which a line goes on starts the value |
| RegexProperties.FindTextSameLine | parsers/regex_parser.py:29-38 | when the label's own line goes on with more than white space, the value is the rest of that line, stripped |
| RegexItems.ItemAtIff | parsers/regex_parser.py:57 | the item pattern matches at a position exactly when an item shape starts there |
| RegexItems.ItemAtChosen | parsers/regex_parser.py:57 | at a dash, the shape with the latest description start and then the shortest description is the one captured |
| RegexItems.SearchItemChosen | parsers/regex_parser.py:57 | `re.search` settles on the chosen shape, and its second group is the amount of the tail |
| RegexItems.SearchItemIsChosen | parsers/regex_parser.py:57-60 | the item built from the search's groups is the item of the chosen shape |
| RegexItems.LineItemChosen | parsers/regex_parser.py:55-64 | a dash line yields the item of its chosen shape |
| RegexItems.LineItemSound | parsers/regex_parser.py:55-64 | every item a line yields comes from a dash line and its chosen shape |
| RegexItems.LineItemNone | parsers/regex_parser.py:55-64 | a line yields no item exactly when it does not start with a dash once stripped, or holds no item shape |
| RegexItems.LineItemFacts | parsers/regex_parser.py:58-63 | an item's description is stripped and has no line break, and its amount is never negative |
| RegexItems.ItemsOfDashCount | parsers/regex_parser.py:55-64 | there are no more items than dash lines |
| RegexItems.ItemsOfConcat | parsers/regex_parser.py:55-64 | items are appended line by line in line order, so two runs of lines give their items concatenated |
| RegexItems.ItemsOfSound | parsers/regex_parser.py:55-64 | every item comes from some line |
| RegexItems.ItemsOfComplete | parsers/regex_parser.py:55-64 | every line that yields an item has that item among the items |
| RegexExamples.BlankReceipt | parsers/regex_parser.py:10-21 | an empty or all-white-space text gives the record with every field `None`, no items, and the `regex` tag |
| RegexExamples.FindAmountNeedsPoint | parsers/regex_parser.py:40-47 | an amount is only found in a text with a decimal point |
| RegexExamples.LowerCaseTotal | parsers/regex_parser.py:40 | labels are case-sensitive: `Total: $71.81` has no `TOTAL:` amount |
| RegexExamples.WholeDollarTotal | parsers/regex_parser.py:40 | `TOTAL: $45` gives no total: the amount needs a point |
| RegexExamples.ExactTotal | parsers/regex_parser.py:40-42 | `TOTAL: $71.81` gives the total 71.81 exactly |
| RegexExamples.SubtotalReadAsTotal | parsers/regex_parser.py:40-42 | `SUBTOTAL: $10.50` above `TOTAL: $12.00` gives the total 10.50: the first `TOTAL:` in the text, even inside another word, wins |
| RegexExamples.DateCrossesLine | parsers/regex_parser.py:30-32 | with nothing after `Date:` on its line, the date is the whole next line |
| SampleReceipt.FramedLines | parsers/regex_parser.py:21 | lines between two framing breaks, whose ends are not white space, are what `strip().split('\n')` gives back |
| SampleReceipt.SampleReceiptLines | parsers/regex_parser.py:70-86 | the sample receipt splits into its fifteen lines |
| SampleReceipt.SampleMerchant | parsers/regex_parser.py:107 | the sample's merchant is `ACME Office Supplies` |
| SampleReceipt.TotalOfLines | parsers/regex_parser.py:40-42 | a `TOTAL: $71.81` line, with no upper-case `L` before it, gives the total 71.81 |
| SampleReceipt.SampleTotal | parsers/regex_parser.py:108 | the sample's total is 71.81 |
| SampleReceipt.PlainAround | parsers/regex_parser.py:55-64 | a run of item lines with plain lines around it gives one item per line of the run |
| SampleReceipt.SampleItemCount | parsers/regex_parser.py:109 | the sample has three items |
| SampleReceipt.SampleChecks | parsers/regex_parser.py:107-109 | the three assertions of the self-check hold for the parse of the sample |
| Fence.StripFences | parsers/llm_parser.py:53-56 | a reply that does not open with three backticks is kept as it is, and stripping never lengthens it |
| Fence.NoClosingUnchanged | parsers/llm_parser.py:53-56 | a reply with no closing fence is kept as it is, even when it opens with one |
| Fence.FencedBlankLine | parsers/llm_parser.py:54-56 | a blank line between the opening line and the body is dropped: `\s*` takes both breaks and gives back only the last |
| Fence.FencedBody | parsers/llm_parser.py:54-56 | a reply that is a fence, with or without `json`, whose body holds a character other than white space with no line break before it, and no closing fence, gives back that body, leading spaces and tabs included, and drops what follows the closing fence |
| LlmParser.UsageOf | parsers/llm_parser.py:62-66 | the usage reports the reply's input and output tokens, and their sum as the total |
| LlmParser.Tag | parsers/llm_parser.py:59 | the decoded record is tagged `llm` and is otherwise unchanged |
| LlmParser.ParseLlm | parsers/llm_parser.py:18-66 | without a key the result is the `ANTHROPIC_API_KEY not found!` failure; a success is tagged `llm` and its total is input plus output |
| LlmParser.KeyCheckedFirst | parsers/llm_parser.py:18-21 | without a key the outcome does not depend on the call or the decoder, and it is a failure |
| LlmParser.ParseLlmSuccess | parsers/llm_parser.py:50-66 | success exactly when there is a key, the call returns and its text decodes; the record then differs from the decoded one only in its tag, and the usage carries the reply's counts |
| LlmParser.ErrorsPropagate | parsers/llm_parser.py:25-58 | with a key, the failure of the call or of the decoder is the failure of the whole, unchanged |
| LlmParser.FencedText | parsers/llm_parser.py:50-56 | a fenced reply with white space around it leaves only the body for the decoder |
| LlmParser.ParseLlmReply | parsers/llm_parser.py:58-66 | with a key, the result is the decoder's verdict on the stripped text, tagged, with the reply's usage |
| LlmParser.FencedReply | parsers/llm_parser.py:50-66 | a fenced reply is decoded from its body alone |
| Api.Dispatch | api.py:57-114 | blank text is the 400 error; any other failure is a 500; a success carries data and no error |
| Api.AutoFailsOnlyWhenBothFail | api.py:61-83 | auto mode fails exactly on blank text or when both parsers fail; the detail carries both messages, the model's first |
| Api.AutoPrefersModel | api.py:61-69 | when the model succeeds, auto mode answers as `llm` mode does, with its usage, whatever the rules would do |
| Api.FallbackShape | api.py:70-78 | a response is tagged `regex_fallback` exactly when the model failed, and then carries the rule-based record without usage |
| Api.UsageOnlyFromModel | api.py:61-109 | usage is reported exactly when the response is tagged `llm`, and then the data is the model's record |
| Api.ModelModeNoFallback | api.py:86-99 | `llm` mode fails exactly when the model does, whatever the rules would do, and prefixes its message |
| Api.RegexModeIgnoresModel | api.py:102-114 | `regex` mode does not depend on the model, succeeds exactly when the rules do, and is tagged `regex` |
| Api.ParseEndpoint | api.py:57-58 | the endpoint answers the 400 error exactly for blank text |
| Api.RecordAnswers | api.py:61-114 | when the rules return a record, auto and `regex` mode answer; the response is tagged `llm` exactly when the model's record is used, and otherwise carries the rule-based record |
| Api.EndpointAnswers | api.py:61-114 | auto and `regex` mode answer every non-blank text; a response tagged `llm` carries a record tagged `llm`, and any other carries the rule-based record |
| Api.EndpointWithoutKey | api.py:61-99 | without a key, auto mode falls back to the rule-based record, and `llm` mode reports the missing key as a 500 |
| Api.CompareRecords | api.py:160-167 | the merchants and the totals match when both are absent or both are equal, and each item count is its record's |
| Api.CompareSelf | api.py:160-167 | a record compared with itself matches on both fields and gives equal counts |
| Api.CompareSwap | api.py:160-167 | comparing the other way round keeps the verdicts and exchanges the counts |
| Api.Compare | api.py:123-169 | blank text is the 400 error; otherwise the report holds both outcomes, with a comparison exactly when both succeeded, and that comparison is `CompareRecords` of the model's record and the rule-based record, in that order |
| Api.CompareEndpoint | api.py:123-124 | `POST /compare` fails exactly on blank text |
| Api.CompareAgreesWithDispatch | api.py:128-158 | a comparison exists exactly when `llm` and `regex` mode of `POST /parse` would both succeed, and each side holds the record that mode answers with |
| Api.CompareAgreesWithParse | api.py:128-158 | the rule-based side always succeeds, so a comparison exists exactly when `llm` mode of `POST /parse` succeeds, on the same record |
| Api.CompareEndpointContents | api.py:158-166 | when the model succeeds, the merchants and totals are compared with the rule-based parser's, and the counts are the model's items and the items of the receipt's lines |
| Api.CompareWithoutKey | api.py:128-153 | without a key, the report records the missing key and the rule-based record, with no comparison |

## Left out

- The Anthropic client and the prompt (`parsers/llm_parser.py:23-48`) are left out. The outcome of the call is a parameter: the reply's text and token counts, or the message of the exception raised. The model name and token limit belong to the call.
- `load_dotenv` and `os.getenv` are left out. The key is an `Option<string>` parameter.
- `json.loads` is left out; it is a decoder parameter from text to a record or an error message.
- A reply that decodes to JSON other than an object is left out. In the code, setting `result["parser_used"]` on it raises a `TypeError`. The decoder here returns a record or a failure.
- An empty `message.content`, which makes `message.content[0]` raise `IndexError`, is left out. It is one more way for the call to fail, and the call's outcome covers that.
- Floating point is left out. `float(...)` of a matched `\d+\.\d+` is the exact decimal the text denotes, a Dafny `real`. So `71.81` is exactly 71.81, and binary rounding does not occur.
- `\d` matches only the ASCII digits. Python's `\d` in a `str` pattern also matches other Unicode decimal digits. `\s` and `str.strip()` follow Python's white space table.
- There is no general regular expression engine. Each of the six patterns is written out as its own backtracking search.
- Api.Compare: the decoder's record always has a list of items, so `len(llm_data.get("items", []))` at `api.py:164` always counts items. In the code it runs outside any `try`. A reply whose `"items"` is `null` or a number makes it raise `TypeError`, and `/compare` answers 500 instead of a report. A string or an object there is counted by its length. The decoder parameter yields only objects whose `items` is an array or absent, so these cases are not modelled.
- Api.CompareEndpoint: for the same reason, "fails exactly on blank text" leaves out the uncaught `TypeError` at `api.py:164` for a decoded `items` that is `null` or a number.
- Api.CompareAgreesWithDispatch: it does not cover a model success whose `items` is not a list. There, `llm` mode of `/parse` succeeds but `/compare` raises at `api.py:164` instead of comparing.
- Api.CompareAgreesWithParse: it has the same gap. For a decoded `items` that is `null` or a number, `/parse` in `llm` mode succeeds while `/compare` raises at `api.py:164`.
- The decoder returns fields of the types the prompt asks for: a string or null for the merchant, date and invoice number; a number or null for the amounts. The comparison at `api.py:161-162` of a merchant or total of another JSON type is not modelled.
- FastAPI and pydantic are left out: routing, request validation of the `parser` field, and serialising the response. The request's text and mode are parameters, and `ReceiptResponse` is a datatype.
- `health_check` and `get_parsers_info` (`api.py:37-44`, `api.py:172` on) return constant dictionaries and are left out.
- The `print` at `api.py:71` is left out.
- The fallbacks for the rule-based parser raising (`api.py:79-83`, `110-114`, `149-153`) are modelled in `Api.Dispatch` and `Api.Compare`. At the endpoints they cannot happen, because `RegexParser.ParseReceipt` is total.
- The test scripts (`test_parser.py`, `test_env.py`, `test_llm.py`) and the printing driver at `parsers/regex_parser.py:88-110` are left out. The three assertions of that driver are proved (`SampleReceipt.SampleChecks`).
