/** The record every strategy produces: the dictionary built at
    parsers/regex_parser.py:10-19 and returned by `json.loads` in the
    model-based parser, with one optional value per field. Absence is
    `None`, never a zero amount. */
module Receipt {
  import opened Wrappers

  /** One `{"description": ..., "amount": ...}` entry of `items`. */
  datatype Item = Item(description: string, amount: real)

  datatype Record = Record(
    merchant: Option<string>,
    date: Option<string>,
    invoiceNumber: Option<string>,
    items: seq<Item>,
    subtotal: Option<real>,
    tax: Option<real>,
    total: Option<real>,
    parserUsed: string)

  /** Token accounting reported next to a model-based record. */
  datatype Usage = Usage(inputTokens: nat, outputTokens: nat, totalTokens: nat)
}
