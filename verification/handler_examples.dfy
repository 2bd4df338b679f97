/** The worked examples of the handler's behaviour, on concrete requests. */
module HandlerExamples {
  import opened Wrappers
  import opened Utf16
  import opened JsValues
  import opened Reversal
  import opened Handler

  /** The words of the example request, "hello", as code units. */
  const Hello: Utf16String := [0x68, 0x65, 0x6C, 0x6C, 0x6F]

  /** "olleh", the expected reversal. */
  const Olleh: Utf16String := [0x6F, 0x6C, 0x6C, 0x65, 0x68]

  /** The two constants are the code units of the literals they name. */
  lemma HelloCodeUnits()
    ensures Lit("hello") == Hello && Lit("olleh") == Olleh
    ensures Reverse(Hello) == Olleh
  {
  }

  /** The request `{"words":"hello"}` gets back
      `{"original":"hello","reversed":"olleh","meta":...}` with the caller's
      address and user agent (1.2.3.4 and curl/8, say) in `meta`. */
  lemma HandleHelloScenario(ctx: HttpContext)
    ensures Handle(Obj(map[WordsKey := Str(Hello)]), ctx)
      == Success(ResponseBody(Str(Hello), Some(Olleh), ResponseMeta(ctx.sourceIp, ctx.userAgent)))
  {
    HelloCodeUnits();
    HandleReversesWords(Obj(map[WordsKey := Str(Hello)]), ctx, Hello);
  }
}
