/**
 * `lambda_handler` of lambda/process-pdf-with-textract/lambda_function.py:
 * the preflight answer, the base64 guard, the Textract call and the
 * conversion of its response, with every exception turned into a 500 reply.
 *
 * The base64 decoder and Textract's `analyze_document` are parameters; an
 * `Err(m)` from either is an exception whose `str(e)` is `m`.
 */
module PdfHandler {
  import opened Wrappers
  import opened LambdaEvents
  import opened TextractSpec

  type Bytes = seq<bv8>

  /** The response of `analyze_document`; `Blocks` may be missing. */
  datatype TextractResponse = TextractResponse(blocks: Option<seq<Block>>)

  /** A reply body: plain text, or the JSON text of `{"error": message}`. */
  datatype Body = Plain(text: string) | ErrorObject(message: string)

  /** The reply; the CORS headers are not modelled. */
  datatype Reply = Reply(statusCode: int, body: Body)

  const NotBase64: string := "File content is not Base64 encoded."

  /**
   * The `try` block: the Markdown text, or `str(e)` of the first exception
   * raised.
   */
  function Converted(e: Event, decode: string -> Result<Bytes, string>,
                     analyze: Bytes -> Result<TextractResponse, string>): Result<string, string>
  {
    if !e.isBase64Encoded then Err(NotBase64)
    else if e.body.None? then Err("'body'")
    else
      var pdf :- decode(e.body.value);
      var response :- analyze(pdf);
      if response.blocks.None? then Err("'Blocks'")
      else
        match Markdown(response.blocks.value)
        case Ok(md) => Ok(md)
        case Err(f) => Err(FailureMessage(f))
  }

  /** `lambda_handler(event, context)`. */
  function Handle(e: Event, decode: string -> Result<Bytes, string>,
                  analyze: Bytes -> Result<TextractResponse, string>): (r: Reply)
    ensures IsPreflight(e) ==> r == Reply(200, Plain(""))
    ensures !IsPreflight(e) && !e.isBase64Encoded ==> r == Reply(500, ErrorObject(NotBase64))
    ensures !IsPreflight(e) && e.isBase64Encoded && e.body.None? ==> r == Reply(500, ErrorObject("'body'"))
    ensures r.statusCode == 200 || r.statusCode == 500
    ensures r.statusCode == 500 <==> r.body.ErrorObject?
  {
    if IsPreflight(e) then Reply(200, Plain(""))
    else
      match Converted(e, decode, analyze)
      case Ok(md) => Reply(200, Plain(md))
      case Err(m) => Reply(500, ErrorObject(m))
  }

  /**
   * A preflight, a request that is not base64-encoded and a request without a
   * body are answered without decoding anything and without calling Textract:
   * the reply is the same whatever the two services would do.
   */
  lemma ServicesNotCalled(e: Event,
                          decode1: string -> Result<Bytes, string>, analyze1: Bytes -> Result<TextractResponse, string>,
                          decode2: string -> Result<Bytes, string>, analyze2: Bytes -> Result<TextractResponse, string>)
    requires IsPreflight(e) || !e.isBase64Encoded || e.body.None?
    ensures Handle(e, decode1, analyze1) == Handle(e, decode2, analyze2)
  {
  }

  /**
   * A request that is not a preflight gets a 200 reply exactly when the body
   * decodes, Textract answers with a `Blocks` list and that list converts;
   * the reply is then the converted Markdown.
   */
  lemma ConvertedReply(e: Event, decode: string -> Result<Bytes, string>,
                       analyze: Bytes -> Result<TextractResponse, string>)
    requires !IsPreflight(e)
    ensures Handle(e, decode, analyze).statusCode == 200 <==>
      e.isBase64Encoded && e.body.Some? && decode(e.body.value).Ok? &&
      analyze(decode(e.body.value).value).Ok? &&
      analyze(decode(e.body.value).value).value.blocks.Some? &&
      Markdown(analyze(decode(e.body.value).value).value.blocks.value).Ok?
    ensures Handle(e, decode, analyze).statusCode == 200 ==>
      Handle(e, decode, analyze).body ==
        Plain(Markdown(analyze(decode(e.body.value).value).value.blocks.value).value)
  {
  }

  /** Each failure of a step of the conversion is reported with its own message. */
  lemma FailureReplies(e: Event, decode: string -> Result<Bytes, string>,
                       analyze: Bytes -> Result<TextractResponse, string>)
    requires !IsPreflight(e) && e.isBase64Encoded && e.body.Some?
    ensures decode(e.body.value).Err? ==>
      Handle(e, decode, analyze) == Reply(500, ErrorObject(decode(e.body.value).error))
    ensures decode(e.body.value).Ok? && analyze(decode(e.body.value).value).Err? ==>
      Handle(e, decode, analyze) == Reply(500, ErrorObject(analyze(decode(e.body.value).value).error))
    ensures decode(e.body.value).Ok? && analyze(decode(e.body.value).value) == Ok(TextractResponse(None)) ==>
      Handle(e, decode, analyze) == Reply(500, ErrorObject("'Blocks'"))
    ensures forall blocks ::
      (decode(e.body.value).Ok? && analyze(decode(e.body.value).value) == Ok(TextractResponse(Some(blocks))) &&
       Markdown(blocks).Err?) ==>
      Handle(e, decode, analyze) == Reply(500, ErrorObject(FailureMessage(Markdown(blocks).error)))
  {
  }
}
