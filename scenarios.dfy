/** Concrete instances of the rules, one per documented example. */
module Scenarios {
  import opened Wrappers
  import opened Records
  import opened JsValues
  import opened Request
  import opened Compiler
  import opened Status
  import opened Response

  lemma CookieExample()
    ensures CookieString([("A", "1"), ("B", "2")]) == "A=1;B=2;"
  {
    CookieStringFirst("A", "1", [("B", "2")]);
    CookieStringFirst("B", "2", []);
  }

  /** `X` in all three maps: the forward value wins, and the extra header
      travels separately as `sd-X`. */
  lemma HeaderPrecedenceExample()
    ensures Lookup(MergeHeaders(Some(Singleton("X", "1")), Some(Singleton("X", "2")), Some(Singleton("X", "3"))), "X") == Some("3")
    ensures Lookup(MergeHeaders(Some(Singleton("X", "1")), Some(Singleton("X", "2")), Some(Singleton("X", "3"))), "sd-X") == Some("2")
  {
    MergeHeadersLookup(Some(Singleton("X", "1")), Some(Singleton("X", "2")), Some(Singleton("X", "3")), "X");
    MergeHeadersLookup(Some(Singleton("X", "1")), Some(Singleton("X", "2")), Some(Singleton("X", "3")), "sd-X");
    assert Prefixed("X") == "sd-X";
  }

  lemma ExtraPrefixExample()
    ensures Prefixed("foo") == "sd-foo" && Prefixed("sd-foo") == "sd-foo"
  {
    assert "foo"[0] != ExtraPrefix[0];
    assert "sd-foo"[..3] == ExtraPrefix;
  }

  lemma StatusExamples()
    ensures ValidateStatus(200, false) && !ValidateStatus(404, false) && !ValidateStatus(301, false)
    ensures !ValidateStatus(429, false) && !ValidateStatus(502, false) && !ValidateStatus(503, false) && !ValidateStatus(504, false)
    ensures ValidateStatus(502, true)
  {
  }

  /** A provider error envelope in a 200 body is still a success; the same
      body on a rejected 400 becomes the error record. */
  lemma ErrorEnvelopeExample(o: DoRequest, headers: Dict<string>)
    requires !Flag(o.settings.transparentResponse) && !Flag(o.settings.returnJSON)
    ensures var body := Obj(Singleton("Message", Arr([Str("bad url")])));
      && Settle(o, Answered(200, headers, body)).RawResponse?
      && Settle(o, Answered(400, headers, body)) == ErrorResponse(Undefined, Undefined, Arr([Str("bad url")]), Undefined, Undefined)
  {
  }

  /** In JSON mode the body's `actionResults` comes through verbatim. */
  lemma ActionResultsExample(o: DoRequest, headers: Dict<string>)
    requires Flag(o.settings.returnJSON)
    ensures var results := Arr([Obj(Singleton("action", Str("Wait")))]);
      Lookup(OnFulfilled(o, 200, headers, Obj(Singleton("actionResults", results))).fields, "actionResults") == Some(results)
  {
    var results := Arr([Obj(Singleton("action", Str("Wait")))]);
    var fields := Singleton("actionResults", results);
    assert fields[0] == ("actionResults", results);
    JsonBodyFieldVerbatim(o, 200, headers, fields, 0);
  }

  /** The code never adds the request URL to a success, but in JSON mode a
      `url` field of the body comes through. */
  lemma JsonUrlPassesThrough(o: DoRequest, headers: Dict<string>)
    requires Flag(o.settings.returnJSON)
    ensures Lookup(OnFulfilled(o, 200, headers, Obj(Singleton("url", Str("x")))).fields, "url") == Some(Str("x"))
  {
    var fields := Singleton("url", Str("x"));
    assert fields[0] == ("url", Str("x"));
    JsonBodyFieldVerbatim(o, 200, headers, fields, 0);
  }
}
