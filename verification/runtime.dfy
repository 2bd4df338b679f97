/** The pure parts of the custom runtime around the handler: the
    control-plane URLs, the choice between the polling loop and the local
    CLI run, and the construction of the handler's inputs from a polled
    event. Fetching, posting and logging are left to the host. */
module Runtime {
  import opened Wrappers
  import opened Utf16
  import opened JsValues
  import opened Handler

  const Scheme: Utf16String := Lit("http://")
  /** The fixed path of the runtime API's invocation resource. */
  const InvocationPath: Utf16String := Lit("/2018-06-01/runtime/invocation")
  const NextSuffix: Utf16String := Lit("/next")
  const ResponseSuffix: Utf16String := Lit("/response")
  const Slash: CodeUnit := 0x2F

  /** The text JavaScript's `+` produces for the `null` that a missing
      header yields. */
  const NullText: Utf16String := Lit("null")

  /** The control-plane base URL for the runtime API host `host`. */
  function BaseUrl(host: Utf16String): (base: Utf16String)
    ensures |base| == |Scheme| + |host| + |InvocationPath|
    ensures base[..|Scheme|] == Scheme
    ensures base[|Scheme|..|Scheme| + |host|] == host
    ensures base[|base| - |InvocationPath|..] == InvocationPath
  {
    Scheme + host + InvocationPath
  }

  /** Different hosts give different base URLs. */
  lemma BaseUrlInjective(host1: Utf16String, host2: Utf16String)
    requires BaseUrl(host1) == BaseUrl(host2)
    ensures host1 == host2
  {
    var base := BaseUrl(host1);
    assert host1 == base[|Scheme|..|Scheme| + |host1|];
  }

  /** The URL polled for the next invocation: the base URL with `/next`. */
  function NextUrl(base: Utf16String): (url: Utf16String)
    ensures |url| == |base| + |NextSuffix|
    ensures url[..|base|] == base
    ensures url[|base|..] == NextSuffix
  {
    base + NextSuffix
  }

  /** The invocation id as it appears in the post URL: the header's text, or
      "null" when the header is missing. */
  function IdText(id: Option<Utf16String>): (text: Utf16String)
    ensures id.Some? ==> text == id.value
    ensures id.None? ==> text == NullText
  {
    match id
    case Some(s) => s
    case None => NullText
  }

  /** The URL the handler's response is posted to:
      base, a slash, the invocation id, then `/response`. */
  function ResponseUrl(base: Utf16String, id: Option<Utf16String>): (url: Utf16String)
    ensures |url| == |base| + 1 + |IdText(id)| + |ResponseSuffix|
    ensures url[..|base|] == base && url[|base|] == Slash
    ensures url[|base| + 1..|url| - |ResponseSuffix|] == IdText(id)
    ensures url[|url| - |ResponseSuffix|..] == ResponseSuffix
  {
    base + [Slash] + IdText(id) + ResponseSuffix
  }

  /** Recovers the invocation id from a post URL built on `base`, or `None`
      when `url` does not have that shape. */
  function ResponseIdOf(base: Utf16String, url: Utf16String): Option<Utf16String> {
    if |url| >= |base| + 1 + |ResponseSuffix|
       && url[..|base|] == base && url[|base|] == Slash
       && url[|url| - |ResponseSuffix|..] == ResponseSuffix
    then Some(url[|base| + 1..|url| - |ResponseSuffix|])
    else None
  }

  /** The id can be read back from the post URL. */
  lemma ResponseUrlRoundTrip(base: Utf16String, id: Option<Utf16String>)
    ensures ResponseIdOf(base, ResponseUrl(base, id)) == Some(IdText(id))
  {
  }

  /** Distinct invocation ids are posted to distinct URLs. */
  lemma ResponseUrlInjective(base: Utf16String, id1: Utf16String, id2: Utf16String)
    requires id1 != id2
    ensures ResponseUrl(base, Some(id1)) != ResponseUrl(base, Some(id2))
  {
    ResponseUrlRoundTrip(base, Some(id1));
    ResponseUrlRoundTrip(base, Some(id2));
  }

  /** A missing id header posts to the same URL as the literal id "null". */
  lemma MissingIdPostsToNull(base: Utf16String)
    ensures ResponseUrl(base, None) == ResponseUrl(base, Some(Lit("null")))
  {
  }

  /** The poll URL is never a post URL: one ends in "t", the other in "e". */
  lemma NextUrlIsNotResponseUrl(base: Utf16String, id: Option<Utf16String>)
    ensures NextUrl(base) != ResponseUrl(base, id)
  {
    var next := NextUrl(base);
    var post := ResponseUrl(base, id);
    assert next[|next| - 1] == NextSuffix[4] == 0x74;
    assert post[|post| - 1] == ResponseSuffix[8] == 0x65;
  }

  /** Both URLs of a loop iteration start with the host's base URL. */
  lemma UrlsStartWithBase(host: Utf16String, id: Option<Utf16String>)
    ensures var prefix := Scheme + host + InvocationPath;
      NextUrl(BaseUrl(host))[..|prefix|] == prefix &&
      ResponseUrl(BaseUrl(host), id)[..|prefix|] == prefix
  {
  }

  /** The two ways the program can run. */
  datatype Mode = PollingLoop | CliRun

  /** The value `Deno.env.get` returns: the variable's text, or `undefined`
      when it is unset. */
  function EnvValue(env: Option<Utf16String>): JsValue {
    match env
    case Some(s) => Str(s)
    case None => Undefined
  }

  /** Whether the guard `if (Deno.env.get(...))` takes its branch: exactly
      when the variable is set to a non-empty string. */
  predicate Truthy(env: Option<Utf16String>)
    ensures Truthy(env) <==> env.Some? && |env.value| > 0
  {
    ToBoolean(EnvValue(env))
  }

  /** The modes started by the two top-level guards, one testing the
      variable and the next testing its negation. */
  function StartedModes(env: Option<Utf16String>): (modes: set<Mode>)
    ensures |modes| == 1
    ensures PollingLoop in modes <==> env.Some? && |env.value| > 0
    ensures CliRun in modes <==> env.None? || env.value == []
  {
    (if Truthy(env) then {PollingLoop} else {}) + (if !Truthy(env) then {CliRun} else {})
  }

  const RequestContextKey: Utf16String := Lit("requestContext")
  const HttpKey: Utf16String := Lit("http")
  const SourceIpKey: Utf16String := Lit("sourceIp")
  const UserAgentKey: Utf16String := Lit("userAgent")

  /** The handler's context from an event:
      `evt.requestContext.http.sourceIp` and `.userAgent`. Reading through
      a missing `requestContext` or `http` throws. */
  function InvocationContext(evt: JsValue): (r: Result<HttpContext, TypeError>)
    ensures r.Success? <==>
      !Nullish(evt) && !Nullish(Prop(evt, RequestContextKey)) &&
      !Nullish(Prop(Prop(evt, RequestContextKey), HttpKey))
    ensures r.Success? ==>
      var http := Prop(Prop(evt, RequestContextKey), HttpKey);
      r.value == HttpContext(Prop(http, SourceIpKey), Prop(http, UserAgentKey))
  {
    var requestContext :- GetProperty(evt, RequestContextKey);
    var http :- GetProperty(requestContext, HttpKey);
    var sourceIp :- GetProperty(http, SourceIpKey);
    // The second read from `http` cannot throw once the first has not.
    Success(HttpContext(sourceIp, Prop(http, UserAgentKey)))
  }

  /** An event of the shape the runtime consumes,
      `{requestContext: {http: {sourceIp, userAgent}}}`, yields the context
      holding its `sourceIp` and `userAgent`. */
  lemma InvocationContextReadsEventShape(ip: JsValue, agent: JsValue)
    ensures InvocationContext(Obj(map[RequestContextKey := Obj(map[HttpKey :=
      Obj(map[SourceIpKey := ip, UserAgentKey := agent])])])) == Success(HttpContext(ip, agent))
  {
    assert SourceIpKey[0] != UserAgentKey[0];
  }

  /** What one loop iteration posts: the URL and the handler's response. */
  datatype Post = Post(url: Utf16String, response: ResponseBody)

  /** One loop iteration after the poll returned: `evt` is the polled event,
      `body` the decoding of its `body` field, `id` the invocation id
      header. A `TypeError` is caught by the loop, logged, and nothing is
      posted. */
  function Invoke(base: Utf16String, id: Option<Utf16String>, evt: JsValue, body: JsValue): (r: Result<Post, TypeError>)
    ensures r.Success? <==> InvocationContext(evt).Success? && !Nullish(body)
    ensures r.Success? ==> r.value.url == ResponseUrl(base, id)
    ensures r.Success? ==> ResponseIdOf(base, r.value.url) == Some(IdText(id))
    ensures r.Success? ==> r.value.response == Handle(body, InvocationContext(evt).value).value
    ensures r.Success? ==>
      var http := Prop(Prop(evt, RequestContextKey), HttpKey);
      r.value.response.meta == ResponseMeta(Prop(http, SourceIpKey), Prop(http, UserAgentKey))
    ensures r.Success? ==> r.value.response.original == Prop(body, WordsKey)
  {
    var ctx :- InvocationContext(evt);
    var response :- Handle(body, ctx);
    ResponseUrlRoundTrip(base, id);
    Success(Post(ResponseUrl(base, id), response))
  }
}
