/** Response normalisation, the last stage of `ScrapeDo.sendRequest`
    (src/lib.ts:287-323): the metadata headers, the raw and the JSON
    success records, and the error record built from a rejected 400. */
module Response {
  import opened Wrappers
  import opened Records
  import opened JsValues
  import opened Request
  import opened Status

  const CookiesHeader := "Scrape.do-Cookies"
  const RemainingCreditsHeader := "Scrape.do-Remaining-Credits"
  const RequestCostHeader := "Scrape.do-Request-Cost"
  const ResolvedUrlHeader := "Scrape.do-Resolved-Url"
  const TargetUrlHeader := "Scrape.do-Target-Url"
  const InitialStatusCodeHeader := "Scrape.do-Initial-Status-Code"
  const TargetRedirectedLocationHeader := "Scrape.do-Target-Redirected-Location"

  /** `DoHeaders`: the provider's side-channel attributes. */
  datatype Metadata = Metadata(
    cookies: Option<string>,
    remainingCredits: Option<string>,
    requestCost: Option<string>,
    resolvedURL: Option<string>,
    targetURL: Option<string>,
    initialStatusCode: Option<string>,
    targetRedirectedLocation: Option<string>)

  /** What `sendRequest` settles with: the raw `DoResponse`, the JSON
      `DoResponse` (an object with arbitrary fields), the `DoErrorResponse`,
      or a thrown error. */
  datatype CallResult =
    | RawResponse(statusCode: int, content: JsValue, meta: Metadata)
    | JsonResponse(fields: Dict<JsValue>)
    | ErrorResponse(url: JsValue, errorStatusCode: JsValue, message: JsValue, possibleCauses: JsValue, contact: JsValue)
    | Thrown(error: Failure)

  /** A metadata field read from its header: present exactly when the
      header is, with the header's value. */
  ghost predicate ReadsHeader(headers: Dict<string>, name: string, field: Option<string>)
  {
    && (field.Some? <==> name in KeySet(headers))
    && forall i :: 0 <= i < |headers| && headers[i].0 == name ==> field == Some(headers[i].1)
  }

  lemma ReadsHeaderLookup(headers: Dict<string>, name: string)
    ensures ReadsHeader(headers, name, Lookup(headers, name))
  {
    LookupInKeys(headers, name);
    forall i | 0 <= i < |headers| && headers[i].0 == name {
      LookupEntry(headers, i);
    }
  }

  /** The seven metadata fields, each read from its fixed `Scrape.do-*`
      header name. */
  function ReadMetadata(headers: Dict<string>): (m: Metadata)
    ensures ReadsHeader(headers, CookiesHeader, m.cookies)
    ensures ReadsHeader(headers, RemainingCreditsHeader, m.remainingCredits)
    ensures ReadsHeader(headers, RequestCostHeader, m.requestCost)
    ensures ReadsHeader(headers, ResolvedUrlHeader, m.resolvedURL)
    ensures ReadsHeader(headers, TargetUrlHeader, m.targetURL)
    ensures ReadsHeader(headers, InitialStatusCodeHeader, m.initialStatusCode)
    ensures ReadsHeader(headers, TargetRedirectedLocationHeader, m.targetRedirectedLocation)
  {
    ReadsHeaderLookup(headers, CookiesHeader);
    ReadsHeaderLookup(headers, RemainingCreditsHeader);
    ReadsHeaderLookup(headers, RequestCostHeader);
    ReadsHeaderLookup(headers, ResolvedUrlHeader);
    ReadsHeaderLookup(headers, TargetUrlHeader);
    ReadsHeaderLookup(headers, InitialStatusCodeHeader);
    ReadsHeaderLookup(headers, TargetRedirectedLocationHeader);
    Metadata(
      Lookup(headers, CookiesHeader),
      Lookup(headers, RemainingCreditsHeader),
      Lookup(headers, RequestCostHeader),
      Lookup(headers, ResolvedUrlHeader),
      Lookup(headers, TargetUrlHeader),
      Lookup(headers, InitialStatusCodeHeader),
      Lookup(headers, TargetRedirectedLocationHeader))
  }

  /** The metadata as the object `...sdoHeaders` spreads: all seven keys,
      an absent header as `undefined`. */
  function MetadataEntries(m: Metadata): seq<Entry<JsValue>>
  {
    [ ("cookies", Optional(m.cookies)),
      ("remainingCredits", Optional(m.remainingCredits)),
      ("requestCost", Optional(m.requestCost)),
      ("resolvedURL", Optional(m.resolvedURL)),
      ("targetURL", Optional(m.targetURL)),
      ("initialStatusCode", Optional(m.initialStatusCode)),
      ("targetRedirectedLocation", Optional(m.targetRedirectedLocation)) ]
  }

  const MetadataKeys: set<string> :=
    {"cookies", "remainingCredits", "requestCost", "resolvedURL", "targetURL",
     "initialStatusCode", "targetRedirectedLocation"}

  /** The `.then` mapping of an accepted response: always a success, raw
      unless `returnJSON` is set; the raw record is the status and the body
      unchanged, with the metadata; the JSON record is an object holding at
      least `statusCode` and the seven metadata keys. */
  function OnFulfilled(o: DoRequest, status: int, headers: Dict<string>, data: JsValue): (r: CallResult)
    ensures r.RawResponse? <==> !Flag(o.settings.returnJSON)
    ensures r.JsonResponse? <==> Flag(o.settings.returnJSON)
    ensures r.RawResponse? ==> r.statusCode == status && r.content == data && r.meta == ReadMetadata(headers)
    ensures r.JsonResponse? ==> {"statusCode"} + MetadataKeys <= KeySet(r.fields)
  {
    MetadataEntriesKeys(ReadMetadata(headers));
    var meta := ReadMetadata(headers);
    if Flag(o.settings.returnJSON) then
      JsonResponse(PutAll(PutAll(Singleton("statusCode", Num(status)), OwnEntries(data)), MetadataEntries(meta)))
    else
      RawResponse(status, data, meta)
  }

  /** The `.catch` mapping of a rejected call: an error record exactly for
      a 400 response whose truthy body has a truthy `Message`, its fields
      read from the body; otherwise the same error thrown again. */
  function OnRejected(error: Reply): (r: CallResult)
    ensures r.ErrorResponse? || r == Thrown(Transport(error))
    ensures r.ErrorResponse? <==>
      error.Answered? && error.status == 400 && Truthy(error.data) && Truthy(Field(error.data, "Message"))
    ensures r.ErrorResponse? ==>
      && r.url == Field(error.data, "URL") && r.errorStatusCode == Field(error.data, "StatusCode")
      && r.message == Field(error.data, "Message") && r.possibleCauses == Field(error.data, "PossibleCauses")
      && r.contact == Field(error.data, "Contact")
  {
    if error.Answered? && Truthy(error.data) && error.status == 400 && Truthy(Field(error.data, "Message")) then
      ErrorResponse(
        Field(error.data, "URL"),
        Field(error.data, "StatusCode"),
        Field(error.data, "Message"),
        Field(error.data, "PossibleCauses"),
        Field(error.data, "Contact"))
    else
      Thrown(Transport(error))
  }

  /** How the call settles once the transport has replied.  An error record
      comes only from a rejected 400 whose body has a truthy `Message`, its
      fields read from the body; every other failure is the transport's
      error re-raised unchanged; an accepted response in raw mode is its
      status and body unchanged with the metadata beside them. */
  function Settle(o: DoRequest, reply: Reply): (r: CallResult)
    ensures r.Thrown? ==> r.error == Transport(reply)
    ensures r.ErrorResponse? <==>
      reply.Answered? && !Flag(o.settings.transparentResponse) && reply.status == 400
      && Truthy(reply.data) && Truthy(Field(reply.data, "Message"))
    ensures r.ErrorResponse? ==>
      r.url == Field(reply.data, "URL") && r.errorStatusCode == Field(reply.data, "StatusCode")
      && r.message == Field(reply.data, "Message") && r.possibleCauses == Field(reply.data, "PossibleCauses")
      && r.contact == Field(reply.data, "Contact")
    ensures r.Thrown? <==> !r.ErrorResponse? && !(reply.Answered? && ValidateStatus(reply.status, Flag(o.settings.transparentResponse)))
    ensures reply.Answered? && ValidateStatus(reply.status, Flag(o.settings.transparentResponse)) && !Flag(o.settings.returnJSON) ==>
      r == RawResponse(reply.status, reply.data, ReadMetadata(reply.headers))
    ensures r.JsonResponse? ==> Flag(o.settings.returnJSON)
    ensures reply.Answered? && ValidateStatus(reply.status, Flag(o.settings.transparentResponse)) ==>
      r == OnFulfilled(o, reply.status, reply.headers, reply.data)
  {
    match reply
    case NoAnswer(_) => OnRejected(reply)
    case Answered(status, headers, data) =>
      if ValidateStatus(status, Flag(o.settings.transparentResponse)) then OnFulfilled(o, status, headers, data)
      else OnRejected(reply)
  }

  /** The spread metadata object has exactly the seven result keys. */
  lemma MetadataEntriesKeys(m: Metadata)
    ensures KeySet(MetadataEntries(m)) == MetadataKeys
  {
    var e := MetadataEntries(m);
    forall k
      ensures k in KeySet(e) <==> k in MetadataKeys
    {
      KeySetMembers(e, k);
      if k in MetadataKeys {
        assert e[0].0 == k || e[1].0 == k || e[2].0 == k || e[3].0 == k || e[4].0 == k || e[5].0 == k || e[6].0 == k;
      }
    }
  }

  /** A field of a JSON-mode success reads as the metadata value if it is
      one of the seven metadata keys (present or not, so the metadata
      overrides same-named body fields), else as the body's own field, else
      as the HTTP status for `statusCode`; there is no other field. */
  lemma JsonResponseLookup(o: DoRequest, status: int, headers: Dict<string>, data: JsValue, k: string)
    requires Flag(o.settings.returnJSON)
    ensures OnFulfilled(o, status, headers, data).JsonResponse?
    ensures Lookup(OnFulfilled(o, status, headers, data).fields, k) ==
      if Lookup(MetadataEntries(ReadMetadata(headers)), k).Some? then Lookup(MetadataEntries(ReadMetadata(headers)), k)
      else if Lookup(OwnEntries(data), k).Some? then Lookup(OwnEntries(data), k)
      else if k == "statusCode" then Some(Num(status))
      else None
  {
    var start := Singleton("statusCode", Num(status));
    LookupPutAll(start, OwnEntries(data), k);
    LookupPutAll(PutAll(start, OwnEntries(data)), MetadataEntries(ReadMetadata(headers)), k);
  }

  /** The keys of a JSON-mode success: `statusCode`, the body's own keys and
      the seven metadata keys. */
  lemma JsonResponseKeys(o: DoRequest, status: int, headers: Dict<string>, data: JsValue)
    requires Flag(o.settings.returnJSON)
    ensures OnFulfilled(o, status, headers, data).JsonResponse?
    ensures KeySet(OnFulfilled(o, status, headers, data).fields) == {"statusCode"} + KeySet(OwnEntries(data)) + MetadataKeys
  {
    MetadataEntriesKeys(ReadMetadata(headers));
  }

  /** In JSON mode each metadata field is read from its fixed
      `Scrape.do-*` header, whatever the body holds. */
  lemma JsonResponseMetadata(o: DoRequest, status: int, headers: Dict<string>, data: JsValue)
    requires Flag(o.settings.returnJSON)
    ensures var f := OnFulfilled(o, status, headers, data).fields;
      && Lookup(f, "cookies") == Some(Optional(Lookup(headers, CookiesHeader)))
      && Lookup(f, "remainingCredits") == Some(Optional(Lookup(headers, RemainingCreditsHeader)))
      && Lookup(f, "requestCost") == Some(Optional(Lookup(headers, RequestCostHeader)))
      && Lookup(f, "resolvedURL") == Some(Optional(Lookup(headers, ResolvedUrlHeader)))
      && Lookup(f, "targetURL") == Some(Optional(Lookup(headers, TargetUrlHeader)))
      && Lookup(f, "initialStatusCode") == Some(Optional(Lookup(headers, InitialStatusCodeHeader)))
      && Lookup(f, "targetRedirectedLocation") == Some(Optional(Lookup(headers, TargetRedirectedLocationHeader)))
  {
    var e := MetadataEntries(ReadMetadata(headers));
    LookupLast(e, 0);
    LookupLast(e, 1);
    LookupLast(e, 2);
    LookupLast(e, 3);
    LookupLast(e, 4);
    LookupLast(e, 5);
    LookupLast(e, 6);
    JsonResponseLookup(o, status, headers, data, "cookies");
    JsonResponseLookup(o, status, headers, data, "remainingCredits");
    JsonResponseLookup(o, status, headers, data, "requestCost");
    JsonResponseLookup(o, status, headers, data, "resolvedURL");
    JsonResponseLookup(o, status, headers, data, "targetURL");
    JsonResponseLookup(o, status, headers, data, "initialStatusCode");
    JsonResponseLookup(o, status, headers, data, "targetRedirectedLocation");
  }

  /** A body field of a JSON object body that is not a metadata key comes
      through verbatim; a body `statusCode` overrides the HTTP status. */
  lemma JsonBodyFieldVerbatim(o: DoRequest, status: int, headers: Dict<string>, fields: Dict<JsValue>, i: nat)
    requires Flag(o.settings.returnJSON)
    requires i < |fields| && fields[i].0 !in MetadataKeys
    ensures Lookup(OnFulfilled(o, status, headers, Obj(fields)).fields, fields[i].0) == Some(fields[i].1)
  {
    var k := fields[i].0;
    LookupEntry(fields, i);
    MetadataEntriesKeys(ReadMetadata(headers));
    LookupInKeys(MetadataEntries(ReadMetadata(headers)), k);
    JsonResponseLookup(o, status, headers, Obj(fields), k);
  }

  /** An accepted response is a success whatever its body holds: a 2xx
      body with a `Message` is not turned into an error record. */
  lemma AcceptedIsSuccess(o: DoRequest, status: int, headers: Dict<string>, data: JsValue)
    requires 200 <= status < 300
    ensures Settle(o, Answered(status, headers, data)).RawResponse? || Settle(o, Answered(status, headers, data)).JsonResponse?
  {
  }
}
