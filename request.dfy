/** The shapes that go into and come out of the transport: the request
    description `DoRequest` (src/lib.ts), the outbound parameter record, the
    compiled call, the transport's reply and the errors a call can throw. */
module Request {
  import opened Wrappers
  import opened Records
  import opened JsValues
  import opened Browser

  datatype Device = Desktop | Mobile
  datatype OutputFormat = RawOutput | Markdown
  datatype WaitUntil = Load | DomContentLoaded | NetworkIdle0 | NetworkIdle2
  datatype Region = Europe | Asia | Africa | Oceania | NorthAmerica | SouthAmerica

  /** A two-letter country code (src/geocode.ts). */
  type GeoCode = string

  /** The options that reach the parameter record unchanged: the transport,
      proxy and render options of `DoRequest`. */
  datatype Settings = Settings(
    disableRedirection: Option<bool>,
    callback: Option<string>,
    timeout: Option<int>,
    retryTimeout: Option<int>,
    disableRetry: Option<bool>,
    device: Option<Device>,
    output: Option<OutputFormat>,
    transparentResponse: Option<bool>,
    superProxy: Option<bool>,
    geoCode: Option<GeoCode>,
    regionalGeoCode: Option<Region>,
    sessionId: Option<string>,
    render: Option<bool>,
    waitUntil: Option<WaitUntil>,
    customWait: Option<int>,
    waitSelector: Option<string>,
    width: Option<int>,
    height: Option<int>,
    blockResources: Option<bool>,
    screenShot: Option<bool>,
    fullScreenShot: Option<bool>,
    particularScreenShot: Option<string>,
    returnJSON: Option<bool>)

  /** `DoRequest`: the target URL, the four header and cookie maps, the
      browser script and the remaining options. */
  datatype DoRequest = DoRequest(
    url: string,
    customHeaders: Option<Dict<string>>,
    extraHeaders: Option<Dict<string>>,
    forwardHeaders: Option<Dict<string>>,
    setCookies: Option<Dict<string>>,
    playWithBrowser: Option<Script>,
    settings: Settings)

  /** A `boolean` option as a condition: only a present `true` is truthy. */
  predicate Flag(b: Option<bool>)
  {
    b == Some(true)
  }

  /** The outbound parameter record: the options with the header maps
      replaced by presence markers (`true` or absent), the cookies as one
      encoded string and the script serialised. */
  datatype Params = Params(
    url: string,
    settings: Settings,
    customHeaders: Option<bool>,
    extraHeaders: Option<bool>,
    forwardHeaders: Option<bool>,
    setCookies: string,
    playWithBrowser: Option<string>)

  /** What is handed to the transport. */
  datatype CompiledCall = CompiledCall(
    httpMethod: string,
    headers: Dict<string>,
    params: Params,
    data: JsValue)

  /** What the transport comes back with: a response (status, headers,
      decoded body) or a fault with no response at all. */
  datatype Reply =
    | Answered(status: int, headers: Dict<string>, data: JsValue)
    | NoAnswer(reason: string)

  /** What a call throws: an `Error` raised by the client itself, or the
      transport's error re-raised. */
  datatype Failure =
    | Usage(message: string)
    | Transport(reply: Reply)
}
