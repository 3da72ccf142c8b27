/** `parse_receipt` of parsers/llm_parser.py:10-68, around the remote
    call it makes. What the model replies and what `json.loads` makes of
    a string are outside this model, so both come in as parameters: the
    outcome of the call (the reply's text and its token counts, or the
    message of the exception it raised) and the decoder (a record, or the
    message of the error it raised). The function checks the key first,
    so without one neither is consulted. */
module LlmParser {
  import opened Wrappers
  import opened Text
  import opened Receipt
  import opened Fence

  /** The message of the `ValueError` at line 21. */
  const KeyMissing := "ANTHROPIC_API_KEY not found!"

  /** `message.content[0].text` and `message.usage` of the reply. */
  datatype Reply = Reply(text: string, inputTokens: nat, outputTokens: nat)

  /** `if not api_key`: a key that is unset or empty is missing. */
  predicate HasKey(key: Option<string>) {
    key.Some? && key.value != []
  }

  /** Lines 50-56: the text handed to `json.loads`. */
  function ReplyJson(reply: Reply): string {
    StripFences(Strip(reply.text))
  }

  /** Lines 62-66: the usage dictionary. */
  function UsageOf(reply: Reply): (u: Usage)
    ensures u.totalTokens == u.inputTokens + u.outputTokens
    ensures u.inputTokens == reply.inputTokens && u.outputTokens == reply.outputTokens
  {
    Usage(reply.inputTokens, reply.outputTokens, reply.inputTokens + reply.outputTokens)
  }

  /** Line 59: the decoded record, tagged as the model's. */
  function Tag(decoded: Record): (r: Record)
    ensures r.parserUsed == "llm"
    ensures r.(parserUsed := decoded.parserUsed) == decoded
  {
    decoded.(parserUsed := "llm")
  }

  /** `parse_receipt(receipt_text)` given the key, the outcome of the
      call and the decoder. A failure carries the `str()` of the
      exception the function lets escape. */
  function ParseLlm(key: Option<string>, call: Result<Reply, string>,
                    decode: string -> Result<Record, string>): (r: Result<(Record, Usage), string>)
    ensures !HasKey(key) ==> r == Failure(KeyMissing)
    ensures r.Success? ==> r.value.0.parserUsed == "llm"
    ensures r.Success? ==> r.value.1.totalTokens == r.value.1.inputTokens + r.value.1.outputTokens
  {
    if !HasKey(key) then Failure(KeyMissing)
    else
      match call
      case Failure(e) => Failure(e)
      case Success(reply) =>
        match decode(ReplyJson(reply))
        case Failure(e) => Failure(e)
        case Success(decoded) => Success((Tag(decoded), UsageOf(reply)))
  }

  /** The key is checked before anything else: without it the result is
      the same whatever the call and the decoder would have done. */
  lemma KeyCheckedFirst(key: Option<string>, call1: Result<Reply, string>, call2: Result<Reply, string>,
                        decode1: string -> Result<Record, string>, decode2: string -> Result<Record, string>)
    requires !HasKey(key)
    ensures ParseLlm(key, call1, decode1) == ParseLlm(key, call2, decode2)
    ensures ParseLlm(key, call1, decode1).Failure?
  {
  }

  /** The function succeeds exactly when there is a key, the call
      returns and its text decodes; then it returns the decoded record,
      changed in its tag only, and the reply's token counts with their
      sum. */
  lemma ParseLlmSuccess(key: Option<string>, call: Result<Reply, string>,
                        decode: string -> Result<Record, string>)
    ensures ParseLlm(key, call, decode).Success? <==>
      HasKey(key) && call.Success? && decode(ReplyJson(call.value)).Success?
    ensures ParseLlm(key, call, decode).Success? ==>
      var (rec, usage) := ParseLlm(key, call, decode).value;
      var decoded := decode(ReplyJson(call.value)).value;
      && rec.(parserUsed := decoded.parserUsed) == decoded
      && usage.inputTokens == call.value.inputTokens
      && usage.outputTokens == call.value.outputTokens
  {
  }

  /** With a key, the error of the call or of the decoder is the error
      of the whole, unchanged (lines 25 and 58). */
  lemma ErrorsPropagate(key: Option<string>, call: Result<Reply, string>,
                        decode: string -> Result<Record, string>)
    requires HasKey(key)
    ensures call.Failure? ==> ParseLlm(key, call, decode) == Failure(call.error)
    ensures call.Success? && decode(ReplyJson(call.value)).Failure? ==>
      ParseLlm(key, call, decode) == Failure(decode(ReplyJson(call.value)).error)
  {
  }

  /** A fence with nothing but white space around it loses both. */
  lemma FencedText(pad1: string, tag: string, body: string, rest: string, pad2: string)
    requires AllSpace(pad1) && AllSpace(pad2)
    requires tag == "" || tag == "json"
    requires OpensOnLine(body)
    requires forall k: nat :: !LabelAt(body, k, Closing)
    requires rest == [] || !IsSpace(rest[|rest| - 1])
    ensures StripFences(Strip(pad1 + (Ticks + tag + "\n" + body + Closing + rest) + pad2)) == body
  {
    var m := Ticks + tag + "\n" + body + Closing + rest;
    assert m[0] == '`';
    assert m[|m| - 1] == if rest == [] then '`' else rest[|rest| - 1];
    StripFrame(pad1, m, pad2);
    FencedBody(tag, body, rest);
  }

  /** With a key, a reply whose text leaves `json` to decode gives the
      decoder's verdict on `json`, tagged, with the reply's usage. */
  lemma ParseLlmReply(key: Option<string>, text: string, inputTokens: nat, outputTokens: nat, json: string,
                      decode: string -> Result<Record, string>)
    requires HasKey(key) && ReplyJson(Reply(text, inputTokens, outputTokens)) == json
    ensures ParseLlm(key, Success(Reply(text, inputTokens, outputTokens)), decode) ==
      match decode(json)
      case Failure(e) => Failure(e)
      case Success(decoded) =>
        Success((decoded.(parserUsed := "llm"), Usage(inputTokens, outputTokens, inputTokens + outputTokens)))
  {
    var reply := Reply(text, inputTokens, outputTokens);
    assert UsageOf(reply) == Usage(inputTokens, outputTokens, inputTokens + outputTokens);
    match decode(json)
    case Failure(e) =>
    case Success(decoded) =>
      assert ParseLlm(key, Success(reply), decode) == Success((Tag(decoded), UsageOf(reply)));
  }

  /** The text handed to the decoder for a reply that is a fenced body
      with white space around it. */
  lemma FencedJson(pad1: string, tag: string, body: string, rest: string, pad2: string,
                   inputTokens: nat, outputTokens: nat)
    requires AllSpace(pad1) && AllSpace(pad2)
    requires tag == "" || tag == "json"
    requires OpensOnLine(body)
    requires forall k: nat :: !LabelAt(body, k, Closing)
    requires rest == [] || !IsSpace(rest[|rest| - 1])
    ensures ReplyJson(Reply(pad1 + (Ticks + tag + "\n" + body + Closing + rest) + pad2, inputTokens, outputTokens)) == body
  {
    FencedText(pad1, tag, body, rest, pad2);
  }

  /** A reply that is a fenced body, with white space around it, is
      decoded from the body alone: whatever follows the first closing
      fence is dropped. */
  lemma FencedReply(key: Option<string>, pad1: string, tag: string, body: string, rest: string, pad2: string,
                    inputTokens: nat, outputTokens: nat, decode: string -> Result<Record, string>)
    requires HasKey(key)
    requires AllSpace(pad1) && AllSpace(pad2)
    requires tag == "" || tag == "json"
    requires OpensOnLine(body)
    requires forall k: nat :: !LabelAt(body, k, Closing)
    requires rest == [] || !IsSpace(rest[|rest| - 1])
    ensures var text := pad1 + (Ticks + tag + "\n" + body + Closing + rest) + pad2;
      ParseLlm(key, Success(Reply(text, inputTokens, outputTokens)), decode) ==
        match decode(body)
        case Failure(e) => Failure(e)
        case Success(decoded) =>
          Success((decoded.(parserUsed := "llm"), Usage(inputTokens, outputTokens, inputTokens + outputTokens)))
  {
    var reply := Reply(pad1 + (Ticks + tag + "\n" + body + Closing + rest) + pad2, inputTokens, outputTokens);
    FencedJson(pad1, tag, body, rest, pad2, inputTokens, outputTokens);
    ParseLlmReply(key, reply.text, inputTokens, outputTokens, body, decode);
  }
}
