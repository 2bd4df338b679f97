/** The function handler: maps the decoded request body and the caller's HTTP
    context to the response record `{original, reversed, meta}`. */
module Handler {
  import opened Wrappers
  import opened Utf16
  import opened JsValues
  import opened Reversal

  /** The caller identity the runtime hands to the handler. */
  datatype HttpContext = HttpContext(sourceIp: JsValue, userAgent: JsValue)

  /** The caller metadata echoed back in the response. */
  datatype ResponseMeta = ResponseMeta(ipAddr: JsValue, userAgent: JsValue)

  /** The handler's response before JSON encoding. `reversed` is `None` for
      the source's `null`. */
  datatype ResponseBody = ResponseBody(original: JsValue, reversed: Option<Utf16String>, meta: ResponseMeta)

  /** The name of the request field holding the text to reverse. */
  const WordsKey: Utf16String := Lit("words")

  /** The guarded reversal of `words`: it succeeds exactly when `words` is a
      string (only strings have `split`); otherwise the `TypeError` is
      swallowed and the value stays `null`. */
  function TryReverse(words: JsValue): (out: Option<Utf16String>)
    ensures out.Some? <==> words.Str?
    ensures out.Some? ==> |out.value| == |words.units|
    ensures out.Some? ==> forall i :: 0 <= i < |words.units| ==>
      out.value[i] == words.units[|words.units| - 1 - i]
  {
    match words
    case Str(s) => Some(ReverseUnits(s))
    case _ => None
  }

  /** The handler on an already decoded request body. Reading `body.words`
      throws when the body decodes to `null`; nothing else can fail. */
  function Handle(body: JsValue, ctx: HttpContext): (r: Result<ResponseBody, TypeError>)
    ensures r.Failure? <==> body.Null? || body.Undefined?
    ensures r.Success? ==> r.value.original == Prop(body, WordsKey)
    ensures r.Success? ==> r.value.meta.ipAddr == ctx.sourceIp
    ensures r.Success? ==> r.value.meta.userAgent == ctx.userAgent
    ensures r.Success? ==> (r.value.reversed.Some? <==> r.value.original.Str?)
    ensures r.Success? && r.value.reversed.Some? ==>
      ReverseUnits(r.value.reversed.value) == r.value.original.units
  {
    var words :- GetProperty(body, WordsKey);
    var response := ResponseBody(words, None, ResponseMeta(ctx.sourceIp, ctx.userAgent));
    Success(response.(reversed := TryReverse(words)))
  }

  /** `original` is `body.words` unchanged and `reversed` is its reversal
      whenever `words` is a string, with the length of `original`. */
  lemma HandleReversesWords(body: JsValue, ctx: HttpContext, s: Utf16String)
    requires body.Obj? && WordsKey in body.props && body.props[WordsKey] == Str(s)
    ensures Handle(body, ctx).Success?
    ensures Handle(body, ctx).value.original == Str(s)
    ensures Handle(body, ctx).value.reversed == Some(Reverse(s))
    ensures |Handle(body, ctx).value.reversed.value| == |s|
  {
    ReverseUnitsIsReverse(s);
  }

  /** A missing `words` field gives `reversed: null` and an undefined
      `original`, without an error. */
  lemma HandleMissingWords(body: JsValue, ctx: HttpContext)
    requires !Nullish(body) && !(body.Obj? && WordsKey in body.props)
    ensures Handle(body, ctx) == Success(ResponseBody(Undefined, None, ResponseMeta(ctx.sourceIp, ctx.userAgent)))
  {
  }

  /** The metadata depends on the context alone, and whether the call
      succeeds, `original` and `reversed` on the body alone. */
  lemma HandleSeparatesInputs(body1: JsValue, body2: JsValue, ctx1: HttpContext, ctx2: HttpContext)
    ensures Handle(body1, ctx1).Success? == Handle(body1, ctx2).Success?
    ensures Handle(body1, ctx1).Success? && Handle(body2, ctx1).Success? ==>
      Handle(body1, ctx1).value.meta == Handle(body2, ctx1).value.meta
    ensures Handle(body1, ctx1).Success? ==>
      Handle(body1, ctx1).value.original == Handle(body1, ctx2).value.original &&
      Handle(body1, ctx1).value.reversed == Handle(body1, ctx2).value.reversed
  {
  }

  /** An empty `words` gives an empty `original` and an empty `reversed`. */
  lemma HandleEmptyWords(ctx: HttpContext)
    ensures Handle(Obj(map[WordsKey := Str([])]), ctx)
      == Success(ResponseBody(Str([]), Some([]), ResponseMeta(ctx.sourceIp, ctx.userAgent)))
  {
  }
}
