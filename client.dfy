/** `ScrapeDo.sendRequest` (src/lib.ts:211-324) as one call: compile the
    request, hand the compiled call to the transport, settle on its reply.
    The transport (an HTTP client bound to the provider's base URL and the
    token) is the parameter `transport`; the JSON serialiser of the browser
    script is the parameter `stringify`. */
module ScrapeDo {
  import opened Wrappers
  import opened JsValues
  import opened Browser
  import opened Request
  import opened Compiler
  import opened Response

  /** A usage error is thrown before the transport is consulted (the result
      does not depend on it); otherwise the call settles on the transport's
      reply to exactly the compiled call. */
  method SendRequest(
    httpMethod: string, o: DoRequest, body: JsValue,
    stringify: Script -> string, transport: CompiledCall -> Reply)
    returns (r: CallResult)
    ensures Conflicting(o) ==> r == Thrown(Usage(CookieConflictMessage))
    ensures !Conflicting(o) && httpMethod == "GET" && Truthy(body) ==> r == Thrown(Usage(GetBodyMessage))
    ensures !Conflicting(o) && !(httpMethod == "GET" && Truthy(body)) ==>
      r == Settle(o, transport(CompiledCall(
        httpMethod, MergeHeaders(o.customHeaders, o.extraHeaders, o.forwardHeaders), BuildParams(o, stringify), body)))
  {
    var compiled := CompileRequest(httpMethod, o, body, stringify);
    match compiled
    case Failure(e) =>
      r := Thrown(e);
    case Success(call) =>
      r := Settle(o, transport(call));
  }

  /** Without any directive, a GET without body answered with a 2xx settles
      with the body as content, unchanged. */
  lemma PlainRoundTrip(o: DoRequest, stringify: Script -> string, status: int, headers: Records.Dict<string>, data: JsValue)
    requires o.customHeaders.None? && o.extraHeaders.None? && o.forwardHeaders.None? && o.setCookies.None?
    requires !Flag(o.settings.returnJSON)
    requires 200 <= status < 300
    ensures Compile("GET", o, Undefined, stringify).Success?
    ensures Compile("GET", o, Undefined, stringify).value.headers == []
    ensures Settle(o, Answered(status, headers, data)) == RawResponse(status, data, ReadMetadata(headers))
  {
  }
}
