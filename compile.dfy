/** Request compilation, the first stage of `ScrapeDo.sendRequest`
    (src/lib.ts:212-266): the two usage checks, the header merge, the cookie
    string, the script serialisation and the parameter record. */
module Compiler {
  import opened Wrappers
  import opened Records
  import opened JsValues
  import opened Browser
  import opened UriEncoding
  import opened Request

  const ExtraPrefix := "sd-"
  const CookieConflictMessage := "setCookies cannot be used with customHeaders, extraHeaders or forwardHeaders"
  const GetBodyMessage := "GET method does not support body"

  /** Cookies together with any header map, present even if empty. */
  predicate Conflicting(o: DoRequest)
  {
    o.setCookies.Some? && (o.customHeaders.Some? || o.extraHeaders.Some? || o.forwardHeaders.Some?)
  }

  /** The header name an extra header is sent under: it always carries the
      `sd-` prefix, ends with the given key, and is the key itself when the
      key already has the prefix. */
  function Prefixed(key: string): (r: string)
    ensures ExtraPrefix <= r
    ensures |key| <= |r| && r[|r| - |key|..] == key
    ensures ExtraPrefix <= key <==> r == key
    ensures !(ExtraPrefix <= key) ==> |r| == |ExtraPrefix| + |key|
  {
    if ExtraPrefix <= key then key else ExtraPrefix + key
  }

  /** The extra headers as the sequence of writes the loop performs. */
  function PrefixKeys(s: seq<Entry<string>>): (r: seq<Entry<string>>)
    ensures |r| == |s|
  {
    if s == [] then []
    else PrefixKeys(s[..|s| - 1]) + [(Prefixed(s[|s| - 1].0), s[|s| - 1].1)]
  }

  /** The loop's `i`-th write is the `i`-th extra header under its prefixed
      name, with its value. */
  lemma {:induction false} PrefixKeysAt(s: seq<Entry<string>>, i: nat)
    requires i < |s|
    ensures PrefixKeys(s)[i] == (Prefixed(s[i].0), s[i].1)
  {
    if i < |s| - 1 {
      var front := s[..|s| - 1];
      assert front[i] == s[i];
      PrefixKeysAt(front, i);
    }
  }

  /** The header names the extra headers produce. */
  ghost function PrefixedNames(s: seq<Entry<string>>): set<string>
  {
    set key | key in KeySet(s) :: Prefixed(key)
  }

  /** The outbound header map: the custom headers, then the extra headers
      under their prefixed names, then the forward headers, each layer
      overwriting the one before. */
  function MergeHeaders(custom: Option<Dict<string>>, extra: Option<Dict<string>>, forward: Option<Dict<string>>): (r: Dict<string>)
    ensures KeySet(r) == KeySet(custom.GetOr([])) + PrefixedNames(extra.GetOr([])) + KeySet(forward.GetOr([]))
    ensures custom.None? && extra.None? && forward.None? ==> r == []
  {
    PrefixKeysKeys(extra.GetOr([]));
    var base := PutAll([], custom.GetOr([]));
    PutAll(PutAll(base, PrefixKeys(extra.GetOr([]))), forward.GetOr([]))
  }

  /** `key=value;` for every entry, in entry order: empty exactly when
      there are no cookies, and otherwise ending with `;`, the last segment
      included. */
  function CookieString(jar: seq<Entry<string>>): (r: string)
    ensures r == "" <==> jar == []
    ensures jar != [] ==> r[|r| - 1] == ';'
  {
    if jar == [] then ""
    else
      var last := jar[|jar| - 1];
      CookieString(jar[..|jar| - 1]) + last.0 + "=" + last.1 + ";"
  }

  /** The outbound parameter record: every option passes unchanged, the
      header maps only as presence markers, the cookies as the encoding of
      their string (of "" when there are none), the script as its
      serialisation. */
  function BuildParams(o: DoRequest, stringify: Script -> string): (p: Params)
    ensures p.url == o.url && p.settings == o.settings
    ensures p.customHeaders.Some? <==> o.customHeaders.Some?
    ensures p.extraHeaders.Some? <==> o.extraHeaders.Some?
    ensures p.forwardHeaders.Some? <==> o.forwardHeaders.Some?
    ensures Some(false) !in {p.customHeaders, p.extraHeaders, p.forwardHeaders}
    ensures p.setCookies == EncodeURIComponent(if o.setCookies.Some? then CookieString(o.setCookies.value) else "")
    ensures '=' !in p.setCookies && ';' !in p.setCookies
    ensures p.playWithBrowser.Some? <==> o.playWithBrowser.Some?
    ensures o.playWithBrowser.Some? ==> p.playWithBrowser.value == stringify(o.playWithBrowser.value)
  {
    var cookies := if o.setCookies.Some? then CookieString(o.setCookies.value) else "";
    Params(
      o.url,
      o.settings,
      if o.customHeaders.Some? then Some(true) else None,
      if o.extraHeaders.Some? then Some(true) else None,
      if o.forwardHeaders.Some? then Some(true) else None,
      EncodeURIComponent(cookies),
      if o.playWithBrowser.Some? then Some(stringify(o.playWithBrowser.value)) else None)
  }

  /** The compiled call, or the usage error the client throws before any
      request is made.  The cookie conflict is checked first, so it wins
      over a body on GET; only the exact method "GET" with a truthy body
      is refused. */
  function Compile(httpMethod: string, o: DoRequest, body: JsValue, stringify: Script -> string): (r: Result<CompiledCall, Failure>)
    ensures r == Failure(Usage(CookieConflictMessage)) <==> Conflicting(o)
    ensures r == Failure(Usage(GetBodyMessage)) <==> !Conflicting(o) && httpMethod == "GET" && Truthy(body)
    ensures r.Failure? ==> r.error.Usage?
    ensures r.Success? ==> r.value.httpMethod == httpMethod && r.value.data == body
    ensures !Conflicting(o) && !(httpMethod == "GET" && Truthy(body)) ==>
      && r.Success?
      && r.value.headers == MergeHeaders(o.customHeaders, o.extraHeaders, o.forwardHeaders)
      && r.value.params == BuildParams(o, stringify)
  {
    if Conflicting(o) then Failure(Usage(CookieConflictMessage))
    else if httpMethod == "GET" && Truthy(body) then Failure(Usage(GetBodyMessage))
    else Success(CompiledCall(
      httpMethod,
      MergeHeaders(o.customHeaders, o.extraHeaders, o.forwardHeaders),
      BuildParams(o, stringify),
      body))
  }

  /** The `for…in` loop over the extra headers: each key is written, under
      its prefixed name, into the header dictionary in place. */
  method WriteExtraHeaders(headers: Dict<string>, extra: Dict<string>) returns (h: Dict<string>)
    ensures h == PutAll(headers, PrefixKeys(extra))
  {
    h := headers;
    var i := 0;
    while i < |extra|
      invariant 0 <= i <= |extra|
      invariant h == PutAll(headers, PrefixKeys(extra[..i]))
    {
      var (key, value) := extra[i];
      if ExtraPrefix <= key {
        h := Put(h, key, value);
      } else {
        h := Put(h, ExtraPrefix + key, value);
      }
      assert extra[..i + 1][..i] == extra[..i];
      ghost var writes := PrefixKeys(extra[..i + 1]);
      assert writes[..i] == PrefixKeys(extra[..i]);
      i := i + 1;
    }
    assert extra[..i] == extra;
  }

  /** The `for…in` loop over the cookies: `key=value;` appended per entry. */
  method JoinCookies(jar: Dict<string>) returns (cookies: string)
    ensures cookies == CookieString(jar)
  {
    cookies := "";
    var i := 0;
    while i < |jar|
      invariant 0 <= i <= |jar|
      invariant cookies == CookieString(jar[..i])
    {
      cookies := cookies + jar[i].0 + "=" + jar[i].1 + ";";
      assert jar[..i + 1][..i] == jar[..i];
      i := i + 1;
    }
    assert jar[..i] == jar;
  }

  /** The compilation as the client performs it: a header dictionary
      reassigned and updated in place, then the cookie string and the
      parameter record. */
  method CompileRequest(httpMethod: string, o: DoRequest, body: JsValue, stringify: Script -> string)
    returns (r: Result<CompiledCall, Failure>)
    ensures r == Compile(httpMethod, o, body, stringify)
  {
    var headers: Dict<string> := [];
    if Conflicting(o) {
      return Failure(Usage(CookieConflictMessage));
    }
    if o.customHeaders.Some? {
      headers := PutAll(headers, o.customHeaders.value);
    }
    if o.extraHeaders.Some? {
      headers := WriteExtraHeaders(headers, o.extraHeaders.value);
    }
    if o.forwardHeaders.Some? {
      headers := PutAll(headers, o.forwardHeaders.value);
    }
    if httpMethod == "GET" && Truthy(body) {
      return Failure(Usage(GetBodyMessage));
    }

    var cookies: Option<string> := None;
    if o.setCookies.Some? {
      var joined := JoinCookies(o.setCookies.value);
      cookies := Some(joined);
    }
    var pwbParsed: Option<string> := None;
    if o.playWithBrowser.Some? {
      pwbParsed := Some(stringify(o.playWithBrowser.value));
    }
    var params := Params(
      url := o.url,
      settings := o.settings,
      extraHeaders := if o.extraHeaders.Some? then Some(true) else None,
      forwardHeaders := if o.forwardHeaders.Some? then Some(true) else None,
      customHeaders := if o.customHeaders.Some? then Some(true) else None,
      setCookies := EncodeURIComponent(if cookies.Some? && cookies.value != "" then cookies.value else ""),
      playWithBrowser := pwbParsed);
    r := Success(CompiledCall(httpMethod, headers, params, body));
  }

  /** A key of the merged map reads as the forward header if there is one,
      else as the last extra header written under that name, else as the
      custom header. */
  lemma MergeHeadersLookup(custom: Option<Dict<string>>, extra: Option<Dict<string>>, forward: Option<Dict<string>>, k: string)
    ensures Lookup(MergeHeaders(custom, extra, forward), k) ==
      if Lookup(forward.GetOr([]), k).Some? then Lookup(forward.GetOr([]), k)
      else if Lookup(PrefixKeys(extra.GetOr([])), k).Some? then Lookup(PrefixKeys(extra.GetOr([])), k)
      else Lookup(custom.GetOr([]), k)
  {
    var base := PutAll([], custom.GetOr([]));
    var middle := PutAll(base, PrefixKeys(extra.GetOr([])));
    LookupPutAll([], custom.GetOr([]), k);
    LookupPutAll(base, PrefixKeys(extra.GetOr([])), k);
    LookupPutAll(middle, forward.GetOr([]), k);
  }

  /** The extra headers produce exactly the prefixed names of their keys. */
  lemma {:induction false} PrefixKeysKeys(s: seq<Entry<string>>)
    ensures KeySet(PrefixKeys(s)) == PrefixedNames(s)
  {
    if s != [] {
      var p := s[..|s| - 1];
      var r := PrefixKeys(s);
      assert r[..|r| - 1] == PrefixKeys(p);
      PrefixKeysKeys(p);
      assert KeySet(s) == KeySet(p) + {s[|s| - 1].0};
    }
  }

  /** When a single extra key is sent under header name `k`, the header
      carries that key's value: `foo` is sent as `sd-foo`, `sd-foo` as
      itself. */
  lemma {:induction false} PrefixKeysLookup(s: seq<Entry<string>>, key: string)
    requires key in KeySet(s)
    requires forall other :: other in KeySet(s) && Prefixed(other) == Prefixed(key) ==> other == key
    ensures Lookup(PrefixKeys(s), Prefixed(key)) == Lookup(s, key)
  {
    var p := s[..|s| - 1];
    var last := s[|s| - 1];
    var r := PrefixKeys(s);
    assert r[..|r| - 1] == PrefixKeys(p);
    assert KeySet(s) == KeySet(p) + {last.0};
    if last.0 != key {
      assert Prefixed(last.0) != Prefixed(key);
      PrefixKeysLookup(p, key);
    }
  }

  /** Presence, not content, decides the conflict: any cookie map (even an
      empty one) beside an empty header map is refused, and before the GET
      check. */
  lemma EmptyMapsConflict(httpMethod: string, o: DoRequest, body: JsValue, stringify: Script -> string)
    requires o.setCookies.Some?
    requires o.customHeaders == Some([]) || o.extraHeaders == Some([]) || o.forwardHeaders == Some([])
    ensures Conflicting(o)
    ensures Compile(httpMethod, o, body, stringify) == Failure(Usage(CookieConflictMessage))
  {
  }

  /** The cookie string of a concatenation is the concatenation of the
      cookie strings: one `key=value;` segment per entry, in order. */
  lemma {:induction false} CookieStringAppend(a: seq<Entry<string>>, b: seq<Entry<string>>)
    ensures CookieString(a + b) == CookieString(a) + CookieString(b)
  {
    if b == [] {
      assert a + b == a;
    } else {
      var p := b[..|b| - 1];
      var last := b[|b| - 1];
      var segment := last.0 + "=" + last.1 + ";";
      assert (a + b)[..|a + b| - 1] == a + p;
      assert (a + b)[|a + b| - 1] == last;
      assert CookieString(a + b) == CookieString(a + p) + segment;
      assert CookieString(b) == CookieString(p) + segment;
      CookieStringAppend(a, p);
    }
  }

  /** The first segment is the first entry's `key=value;`. */
  lemma CookieStringFirst(key: string, value: string, rest: seq<Entry<string>>)
    ensures CookieString([(key, value)] + rest) == key + "=" + value + ";" + CookieString(rest)
  {
    CookieStringAppend([(key, value)], rest);
    assert [(key, value)][..0] == [];
  }
}
