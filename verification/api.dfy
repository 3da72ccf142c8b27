/** The two endpoints of api.py that parse: `POST /parse` (lines 47-114)
    and `POST /compare` (lines 117-169). Each is modelled twice: as a
    function of the outcomes of the two parsers, which states how the
    endpoint combines whatever they did, and as the endpoint proper,
    where the rule-based outcome is `ParseReceipt` of the text and the
    model-based one is `ParseLlm` of the key, the remote call and the
    decoder. An `HTTPException` is a `Failure` carrying its status code
    and detail. */
module Api {
  import opened Wrappers
  import opened Text
  import opened Receipt
  import Patterns
  import opened RegexParser
  import opened LlmParser

  /** The `parser` field of the request, line 18. */
  datatype Mode = Auto | Llm | Regex

  /** `ReceiptResponse`, lines 29-34. */
  datatype Response = Response(
    success: bool,
    parserUsed: string,
    data: Option<Record>,
    error: Option<string>,
    usage: Option<Usage>)

  /** An `HTTPException`. */
  datatype HttpError = HttpError(status: nat, detail: string)

  /** What the model-based parser did: a record and its usage, or the
      `str()` of the exception it raised. */
  type LlmOutcome = Result<(Record, Usage), string>

  /** What the rule-based parser did. */
  type RegexOutcome = Result<Record, string>

  /** Lines 57-58 and 123-124: text that strips to nothing. */
  const EmptyText := HttpError(400, "receipt_text cannot be empty")

  predicate Blank(text: string) {
    Strip(text) == []
  }

  function Succeeded(parserUsed: string, data: Record, usage: Option<Usage>): Response {
    Response(true, parserUsed, Some(data), None, usage)
  }

  /** `parse_receipt` of api.py given what each parser does on the text.
      Each parser is consulted only on the path that calls it. */
  function Dispatch(text: string, mode: Mode, llm: LlmOutcome, regex: RegexOutcome): (r: Result<Response, HttpError>)
    ensures Blank(text) ==> r == Failure(EmptyText)
    ensures r.Success? ==> r.value.success && r.value.error.None? && r.value.data.Some?
    ensures r.Failure? && !Blank(text) ==> r.error.status == 500
  {
    if Blank(text) then Failure(EmptyText)
    else
      match mode
      case Auto =>
        (match llm
         case Success((data, usage)) => Success(Succeeded("llm", data, Some(usage)))
         case Failure(e1) =>
           match regex
           case Success(data) => Success(Succeeded("regex_fallback", data, None))
           case Failure(e2) =>
             Failure(HttpError(500, "Both parsers failed. LLM: " + e1 + ", Regex: " + e2)))
      case Llm =>
        (match llm
         case Success((data, usage)) => Success(Succeeded("llm", data, Some(usage)))
         case Failure(e) => Failure(HttpError(500, "LLM parsing failed: " + e)))
      case Regex =>
        match regex
        case Success(data) => Success(Succeeded("regex", data, None))
        case Failure(e) => Failure(HttpError(500, "Regex parsing failed: " + e))
  }

  /** Auto mode fails only on blank text or when both parsers fail, and
      then the detail carries both messages, the model's first. */
  lemma AutoFailsOnlyWhenBothFail(text: string, llm: LlmOutcome, regex: RegexOutcome)
    ensures Dispatch(text, Auto, llm, regex).Failure? <==>
      Blank(text) || (llm.Failure? && regex.Failure?)
    ensures !Blank(text) && llm.Failure? && regex.Failure? ==>
      var detail := Dispatch(text, Auto, llm, regex).error.detail;
      var n := |"Both parsers failed. LLM: "|;
      && detail[n..n + |llm.error|] == llm.error
      && detail[|detail| - |regex.error|..] == regex.error
  {
    if !Blank(text) && llm.Failure? && regex.Failure? {
      var detail := Dispatch(text, Auto, llm, regex).error.detail;
      assert detail == "Both parsers failed. LLM: " + llm.error + ", Regex: " + regex.error;
    }
  }

  /** When the model succeeds, auto mode answers with its record and
      usage and never looks at the rule-based parser. */
  lemma AutoPrefersModel(text: string, llm: LlmOutcome, regex1: RegexOutcome, regex2: RegexOutcome)
    requires !Blank(text) && llm.Success?
    ensures Dispatch(text, Auto, llm, regex1) == Dispatch(text, Auto, llm, regex2)
    ensures Dispatch(text, Auto, llm, regex1) == Dispatch(text, Llm, llm, regex1)
    ensures Dispatch(text, Auto, llm, regex1).value.usage == Some(llm.value.1)
  {
  }

  /** A fallback answer is the rule-based record, without usage, and is
      only given when the model failed. */
  lemma FallbackShape(text: string, llm: LlmOutcome, regex: RegexOutcome)
    requires Dispatch(text, Auto, llm, regex).Success?
    ensures Dispatch(text, Auto, llm, regex).value.parserUsed == "regex_fallback" <==> llm.Failure?
    ensures llm.Failure? ==> Dispatch(text, Auto, llm, regex).value == Succeeded("regex_fallback", regex.value, None)
  {
  }

  /** Usage is reported exactly when the model's record is returned. */
  lemma UsageOnlyFromModel(text: string, mode: Mode, llm: LlmOutcome, regex: RegexOutcome)
    requires Dispatch(text, mode, llm, regex).Success?
    ensures Dispatch(text, mode, llm, regex).value.usage.Some? <==>
      Dispatch(text, mode, llm, regex).value.parserUsed == "llm"
    ensures Dispatch(text, mode, llm, regex).value.parserUsed == "llm" ==>
      llm.Success? && Dispatch(text, mode, llm, regex).value.data == Some(llm.value.0)
  {
  }

  /** `llm` mode has no fallback: it fails exactly when the model does,
      whatever the rule-based parser would do, and says why. */
  lemma ModelModeNoFallback(text: string, llm: LlmOutcome, regex1: RegexOutcome, regex2: RegexOutcome)
    requires !Blank(text)
    ensures Dispatch(text, Llm, llm, regex1) == Dispatch(text, Llm, llm, regex2)
    ensures Dispatch(text, Llm, llm, regex1).Failure? <==> llm.Failure?
    ensures llm.Failure? ==>
      Dispatch(text, Llm, llm, regex1).error.detail == "LLM parsing failed: " + llm.error
  {
  }

  /** `regex` mode never consults the model and says so in its tag. */
  lemma RegexModeIgnoresModel(text: string, llm1: LlmOutcome, llm2: LlmOutcome, regex: RegexOutcome)
    requires !Blank(text)
    ensures Dispatch(text, Regex, llm1, regex) == Dispatch(text, Regex, llm2, regex)
    ensures Dispatch(text, Regex, llm1, regex).Success? <==> regex.Success?
    ensures regex.Success? ==> Dispatch(text, Regex, llm1, regex).value.parserUsed == "regex"
  {
  }

  /** `POST /parse` itself: the rule-based parser runs on the text, the
      model-based one is `ParseLlm` of the key, the call and the decoder. */
  function ParseEndpoint(text: string, mode: Mode, key: Option<string>, call: Result<Reply, string>,
                         decode: string -> Result<Record, string>): (r: Result<Response, HttpError>)
    ensures Blank(text) <==> r == Failure(EmptyText)
  {
    Dispatch(text, mode, ParseLlm(key, call, decode), Success(ParseReceipt(text)))
  }

  /** What auto and `regex` mode answer when the rule-based parser
      returns a record, as it always does. */
  lemma RecordAnswers(text: string, mode: Mode, llm: LlmOutcome, rec: Record)
    requires !Blank(text) && rec.parserUsed == "regex"
    ensures mode != Llm ==> Dispatch(text, mode, llm, Success(rec)).Success?
    ensures Dispatch(text, mode, llm, Success(rec)).Success? ==>
      var resp := Dispatch(text, mode, llm, Success(rec)).value;
      && (resp.parserUsed == "llm" <==> llm.Success? && mode != Regex)
      && (resp.parserUsed != "llm" ==> resp.data == Some(rec))
  {
  }

  /** The rule-based parser never raises, so auto and `regex` mode
      answer every non-blank text; the tag of the response says which
      parser's record it carries, and the record's own tag agrees. */
  lemma EndpointAnswers(text: string, mode: Mode, key: Option<string>, call: Result<Reply, string>,
                        decode: string -> Result<Record, string>)
    requires !Blank(text)
    ensures mode != Llm ==> ParseEndpoint(text, mode, key, call, decode).Success?
    ensures ParseEndpoint(text, mode, key, call, decode).Success? ==>
      var resp := ParseEndpoint(text, mode, key, call, decode).value;
      && (resp.parserUsed == "llm" ==> resp.data.value.parserUsed == "llm")
      && (resp.parserUsed != "llm" ==> resp.data.value == ParseReceipt(text))
  {
    RecordAnswers(text, mode, ParseLlm(key, call, decode), ParseReceipt(text));
  }

  /** Without a key auto mode always falls back and `llm` mode always
      reports the missing key. */
  lemma EndpointWithoutKey(text: string, key: Option<string>, call: Result<Reply, string>,
                           decode: string -> Result<Record, string>)
    requires !Blank(text) && !HasKey(key)
    ensures ParseEndpoint(text, Auto, key, call, decode) ==
      Success(Succeeded("regex_fallback", ParseReceipt(text), None))
    ensures ParseEndpoint(text, Llm, key, call, decode) ==
      Failure(HttpError(500, "LLM parsing failed: " + KeyMissing))
  {
  }

  /** `results["comparison"]`, lines 160-167. */
  datatype Comparison = Comparison(merchantMatch: bool, totalMatch: bool, llmItems: nat, regexItems: nat)

  /** The dictionary returned at line 169: each parser's outcome, and a
      comparison when both succeeded. */
  datatype Report = Report(llm: LlmOutcome, regex: RegexOutcome, comparison: Option<Comparison>)

  /** Two optional values are equal in Python's sense: both absent, or
      both present with the same value. */
  predicate SameOption<T(==)>(a: Option<T>, b: Option<T>) {
    (a.None? && b.None?) || (a.Some? && b.Some? && a.value == b.value)
  }

  /** Lines 161-166: `==` on the looked-up fields, where a missing field
      is `None`, and the two item counts. */
  function CompareRecords(a: Record, b: Record): (c: Comparison)
    ensures c.merchantMatch <==> SameOption(a.merchant, b.merchant)
    ensures c.totalMatch <==> SameOption(a.total, b.total)
    ensures c.llmItems == |a.items| && c.regexItems == |b.items|
  {
    Comparison(a.merchant == b.merchant, a.total == b.total, |a.items|, |b.items|)
  }

  /** A record compared with itself matches on both fields and counts. */
  lemma CompareSelf(a: Record)
    ensures CompareRecords(a, a) == Comparison(true, true, |a.items|, |a.items|)
  {
  }

  /** Comparing the other way round gives the same verdicts with the
      counts exchanged. */
  lemma CompareSwap(a: Record, b: Record)
    ensures var c := CompareRecords(a, b);
      CompareRecords(b, a) == Comparison(c.merchantMatch, c.totalMatch, c.regexItems, c.llmItems)
  {
  }

  /** `compare_parsers` given what each parser does on the text. */
  function Compare(text: string, llm: LlmOutcome, regex: RegexOutcome): (r: Result<Report, HttpError>)
    ensures Blank(text) <==> r == Failure(EmptyText)
    ensures r.Success? ==> r.value.llm == llm && r.value.regex == regex
    ensures r.Success? ==> (r.value.comparison.Some? <==> llm.Success? && regex.Success?)
    ensures r.Success? && llm.Success? && regex.Success? ==>
      r.value.comparison == Some(CompareRecords(llm.value.0, regex.value))
  {
    if Blank(text) then Failure(EmptyText)
    else
      var comparison :=
        if llm.Success? && regex.Success? then Some(CompareRecords(llm.value.0, regex.value)) else None;
      Success(Report(llm, regex, comparison))
  }

  /** `POST /compare` itself. */
  function CompareEndpoint(text: string, key: Option<string>, call: Result<Reply, string>,
                           decode: string -> Result<Record, string>): (r: Result<Report, HttpError>)
    ensures Blank(text) <==> r.Failure?
  {
    Compare(text, ParseLlm(key, call, decode), Success(ParseReceipt(text)))
  }

  /** On non-blank text the comparison is there exactly when both
      parsers succeed, and each side of the report holds the record
      that the endpoint for that side's mode answers with. */
  lemma CompareAgreesWithDispatch(text: string, llm: LlmOutcome, regex: RegexOutcome)
    requires !Blank(text)
    ensures var report := Compare(text, llm, regex).value;
      && (report.comparison.Some? <==>
            Dispatch(text, Llm, llm, regex).Success? && Dispatch(text, Regex, llm, regex).Success?)
      && (report.llm.Success? ==> Dispatch(text, Llm, llm, regex).value.data == Some(report.llm.value.0))
      && (report.regex.Success? ==> Dispatch(text, Regex, llm, regex).value.data == Some(report.regex.value))
  {
  }

  /** At the endpoints: the rule-based side always succeeds, so the
      comparison is there exactly when `POST /parse` in `llm` mode
      succeeds, and then it carries the same record. */
  lemma CompareAgreesWithParse(text: string, key: Option<string>, call: Result<Reply, string>,
                               decode: string -> Result<Record, string>)
    requires !Blank(text)
    ensures var report := CompareEndpoint(text, key, call, decode).value;
      && report.regex == Success(ParseReceipt(text))
      && (report.comparison.Some? <==> ParseEndpoint(text, Llm, key, call, decode).Success?)
      && (report.comparison.Some? ==>
            ParseEndpoint(text, Llm, key, call, decode).value.data == Some(report.llm.value.0))
  {
    CompareAgreesWithDispatch(text, ParseLlm(key, call, decode), Success(ParseReceipt(text)));
  }

  /** At the endpoint, when the model succeeds, the comparison holds the
      model's record on the left and the rule-based record on the right:
      merchant and total are compared with `ParseReceipt`'s, and the counts
      are the model's items and the items of the receipt's lines. */
  lemma CompareEndpointContents(text: string, key: Option<string>, call: Result<Reply, string>,
                                decode: string -> Result<Record, string>)
    requires !Blank(text) && ParseLlm(key, call, decode).Success?
    ensures var rec := ParseLlm(key, call, decode).value.0;
      var c := CompareEndpoint(text, key, call, decode).value.comparison;
      && c.Some?
      && (c.value.merchantMatch <==> SameOption(rec.merchant, Merchant(text)))
      && (c.value.totalMatch <==> SameOption(rec.total, FindAmount(text, Patterns.LabelledAmount("TOTAL:"))))
      && c.value.llmItems == |rec.items|
      && c.value.regexItems == |ItemsOf(ReceiptLines(text))|
  {
  }

  /** Without a key the report records the missing key and no
      comparison, next to the rule-based record. */
  lemma CompareWithoutKey(text: string, key: Option<string>, call: Result<Reply, string>,
                          decode: string -> Result<Record, string>)
    requires !Blank(text) && !HasKey(key)
    ensures CompareEndpoint(text, key, call, decode) ==
      Success(Report(Failure(KeyMissing), Success(ParseReceipt(text)), None))
  {
  }
}
