# scrape-do node client: the request/response pipeline of `sendRequest`

A Dafny model of `ScrapeDo.sendRequest`, the one method with logic in the
scrape.do Node client (`src/lib.ts`). A call goes through three stages:

1. **Request compilation.** The client refuses cookies combined with any header map,
   and a body on GET. It merges the custom, extra (`sd-`-prefixed) and forward
   headers in that order. It joins the cookies into `k=v;` segments and
   `encodeURIComponent`s them. It serialises the browser-action script and builds
   the parameter record, in which each header map is only a presence marker.
2. **Status classification.** This is the `validateStatus` callback.
3. **Response normalisation.** An accepted response becomes a raw or a JSON-spread
   success carrying seven provider metadata headers. A rejected 400 with a
   `Message` becomes an error record. Every other failure is re-raised.

Modules, one per concern:

- `Wrappers` (`wrappers.dfy`): `Option` and `Result`.
- `Records` (`records.dfy`): JavaScript objects as entry sequences with distinct
  keys (`Dict`), property assignment (`Put`) and object spread (`PutAll`), all in
  insertion order.
- `JsValues` (`js_values.dfy`): JavaScript values, truthiness, property reads and
  what `{...v}` copies.
- `UriEncoding` (`uri_encoding.dfy`): `encodeURIComponent` with UTF-8, plus a
  percent-decoder to state that decoding the encoding gives back exactly the
  string's UTF-8 bytes.
- `Browser` (`browser.dfy`): the nine browser actions of `src/playwithbrowser.ts`,
  each with the fields of its parameter type.
- `Request` (`request.dfy`): `DoRequest`, the parameter record, the compiled
  call, the transport reply and the thrown errors.
- `Compiler` (`compile.dfy`): compilation as a specification (`Compile`) and as
  the imperative code (`CompileRequest`, with the two `for…in` loops as
  `WriteExtraHeaders` and `JoinCookies`). Lemmas about the merge and the cookie
  string are here too.
- `Status` (`status.dfy`): `validateStatus`.
- `Response` (`response.dfy`): the `.then` and `.catch` mappings (`Settle`).
- `ScrapeDo` (`client.dfy`): the whole call, `SendRequest`.
- `Scenarios` (`scenarios.dfy`): the documented examples as concrete lemmas.

Two things are parameters of the model rather than part of it:

- The network is `transport: CompiledCall -> Reply`. A reply is a response
  (status, headers, decoded body) or a fault with no response.
- `JSON.stringify` of the script is `stringify: Script -> string`.

Behaviour of the code a reader might not expect:

- Outside transparent mode only 2xx is accepted. 404, the other 4xx codes, 3xx and 1xx are
  rejected; only a rejected 400 can become an error record, and the rest throw.
- A `Message` in an accepted (2xx) body does not make the result an error; it is
  returned as a success.
- The code never adds the request URL to a success result; in JSON mode a `url`
  field of the body still comes through. The error record takes `url` and
  `statusCode` from the body's `URL` and `StatusCode`, not from the request.

## Model

| member | source | states |
|---|---|---|
| `Records.LookupEntry` | src/lib.ts:289-295 | in an object, `obj[key]` is the value of the one entry holding `key` |
| `Records.LookupInKeys` | src/lib.ts:289-295 | `obj[key]` is present exactly when some entry holds `key`, and `undefined` otherwise |
| `Records.Put` | src/lib.ts:228-234 | `obj[key] = v` adds the key; an existing key keeps its position and no other key moves; a new key is appended at the end |
| `Records.PutAll` | src/lib.ts:237-242 | the keys after a spread are the keys of the target plus those of the source |
| `Records.LookupPut` | src/lib.ts:228-234 | after `obj[key] = v` the key reads `v` and every other key reads as before |
| `Records.LookupPutAll` | src/lib.ts:220-242 | after `{...d, ...s}` a key reads as its last write in `s` if `s` has it, else as in `d`: the later source wins every collision |
| `Records.PutAllIntoEmpty` | src/lib.ts:220-225 | spreading a map into the empty object copies it exactly, entries and order |
| `JsValues.Truthy` | src/lib.ts:244 | every array and every object, even an empty one, is truthy; `undefined`, `null`, `false`, `0` and `""` are falsy (the tests at lines 244 and 312; the presence test at 216 is `Some?` and the flag test at 297 is `Request.Flag`) |
| `JsValues.Field` | src/lib.ts:312-318 | `data[name]` is the value of the object's entry with that name, and `undefined` when the name is absent or the value is not an object |
| `JsValues.OwnEntries` | src/lib.ts:300 | `...data` copies an object's own entries, a string's characters and an array's elements under their decimal indices, and nothing from other values |
| `UriEncoding.Utf8` | src/lib.ts:264 | a code point encodes to one to four bytes, and to its own single byte exactly when it is ASCII |
| `UriEncoding.EncodeURIComponent` | src/lib.ts:264 | the encoding has only unreserved characters and `%`, so `=` and `;` never appear literally; `""` encodes to `""` |
| `UriEncoding.EncodeUnreserved` | src/lib.ts:264 | a string of unreserved characters is its own encoding |
| `UriEncoding.DecodeEncode` | src/lib.ts:264 | percent-decoding the encoding gives back exactly the UTF-8 bytes of the string |
| `Compiler.Prefixed` | src/lib.ts:229-233 | an extra header's name starts with `sd-` and ends with the key; it is the key itself exactly when the key already starts with `sd-`, and otherwise exactly three characters longer than the key, so `sd-` + key |
| `Compiler.EmptyMapsConflict` | src/lib.ts:216-218 | the conflict is decided by presence alone: any cookie map, empty or not, beside an empty header map is refused with the conflict error, whatever the method and body |
| `Compiler.PrefixKeysAt` | src/lib.ts:228-234 | the loop's `i`-th write is the `i`-th extra header under its prefixed name, with its value |
| `Compiler.PrefixKeysKeys` | src/lib.ts:228-234 | the extra headers produce exactly the prefixed names of their keys |
| `Compiler.PrefixKeysLookup` | src/lib.ts:228-234 | a header name that only one extra key maps to carries that key's value |
| `Compiler.MergeHeadersLookup` | src/lib.ts:220-242 | a merged header reads as the forward header if any, else as the last extra header written under that name, else as the custom header |
| `Compiler.MergeHeaders` | src/lib.ts:212-242 | the merged map's keys are exactly the custom keys, the prefixed extra keys and the forward keys; with no map given it is empty |
| `Compiler.CookieStringAppend` | src/lib.ts:250-252 | the cookie string of a concatenation is the concatenation of the cookie strings: one segment per entry, in entry order |
| `Compiler.CookieString` | src/lib.ts:248-253 | the cookie string is empty exactly when there are no cookies and otherwise ends with `;` |
| `Compiler.CookieStringFirst` | src/lib.ts:250-252 | the first segment is the first entry's `key=value;` |
| `Compiler.BuildParams` | src/lib.ts:259-266 | url and options pass unchanged; each header map becomes `true` when present and absent otherwise; `setCookies` is the encoding of the cookie string, or of `""`, and holds no `=` or `;`; the script's serialisation is present exactly when the script is |
| `Compiler.Compile` | src/lib.ts:212-266 | the conflict error comes exactly when cookies meet any header map, even an empty one, and takes precedence over the GET check; the GET error comes exactly when the method is `"GET"` and the body is truthy; every other call succeeds with the merged headers, the parameter record, the method and the body |
| `Compiler.WriteExtraHeaders` | src/lib.ts:227-235 | the loop leaves the header map equal to the map with every extra header written under its prefixed name, in entry order |
| `Compiler.JoinCookies` | src/lib.ts:248-253 | the loop builds exactly the cookie string |
| `Compiler.CompileRequest` | src/lib.ts:212-266 | the imperative compilation returns exactly what `Compile` specifies |
| `Status.ValidateStatus` | src/lib.ts:275-285 | in transparent mode every status is accepted; otherwise a status is accepted exactly when it is 2xx |
| `Status.ExplicitRefusalsAreOutside2xx` | src/lib.ts:279-280 | 400, 429, 502, 503 and 504 are refused outside transparent mode, as the 2xx rule alone would refuse them, and accepted in transparent mode |
| `Response.ReadMetadata` | src/lib.ts:288-296 | each of the seven metadata fields is present exactly when its fixed `Scrape.do-*` header is, with that header's value |
| `Response.OnFulfilled` | src/lib.ts:287-310 | an accepted response is always a success: raw (status, body unchanged, metadata) exactly when `returnJSON` is not set, otherwise an object holding `statusCode` and the seven metadata keys |
| `Response.OnRejected` | src/lib.ts:311-323 | an error record exactly for a 400 response whose truthy body has a truthy `Message`, its five fields read from the body's `URL`, `StatusCode`, `Message`, `PossibleCauses` and `Contact`; otherwise the same error thrown again |
| `Response.Settle` | src/lib.ts:275-323 | an accepted reply settles through the `.then` mapping, in raw and JSON mode alike; an error record arises exactly from a rejected 400 whose truthy body has a truthy `Message`, with its fields read from the body; every throw re-raises the transport's error unchanged; an accepted raw-mode reply gives its status and body unchanged with the metadata headers |
| `Response.MetadataEntriesKeys` | src/lib.ts:288-296 | the spread metadata object has exactly the seven metadata keys |
| `Response.JsonResponseLookup` | src/lib.ts:297-302 | in JSON mode a field reads as the metadata value for the seven metadata keys, else as the body's field, else as the HTTP status for `statusCode`; nothing else is present |
| `Response.JsonResponseKeys` | src/lib.ts:297-302 | the JSON-mode result's keys are `statusCode`, the body's own keys and the seven metadata keys |
| `Response.JsonResponseMetadata` | src/lib.ts:288-302 | each JSON-mode metadata field is read from its fixed `Scrape.do-*` header, `undefined` when it is absent |
| `Response.JsonBodyFieldVerbatim` | src/lib.ts:297-302 | a body field that is not a metadata key comes through verbatim, a body `statusCode` included |
| `Response.AcceptedIsSuccess` | src/lib.ts:287-310 | an accepted 2xx is a success whatever its body holds |
| `ScrapeDo.SendRequest` | src/lib.ts:211-324 | usage errors are thrown without consulting the transport; otherwise the call settles on the transport's reply to exactly the compiled call |
| `ScrapeDo.PlainRoundTrip` | src/lib.ts:212-309 | a plain GET compiles with no headers, and a 2xx reply settles as the raw body unchanged |
| `Scenarios.CookieExample` | src/lib.ts:248-253 | `{A: "1", B: "2"}` gives `A=1;B=2;` |
| `Scenarios.HeaderPrecedenceExample` | src/lib.ts:220-242 | with `X` in all three maps, `X` is the forward value and the extra value travels as `sd-X` |
| `Scenarios.ExtraPrefixExample` | src/lib.ts:229-233 | `foo` is sent as `sd-foo`, `sd-foo` as itself |
| `Scenarios.StatusExamples` | src/lib.ts:275-285 | 200 accepted; 404, 301, 429, 502, 503 and 504 rejected; 502 accepted in transparent mode |
| `Scenarios.ErrorEnvelopeExample` | src/lib.ts:287-323 | a `Message` body is a raw success on 200 and an error record on a rejected 400 |
| `Scenarios.JsonUrlPassesThrough` | src/lib.ts:298-302 | in JSON mode a body field `url` comes through unchanged on a success |
| `Scenarios.ActionResultsExample` | src/lib.ts:297-302 | in JSON mode the body's `actionResults` comes through verbatim |

## Left out

- Transport: the axios instance, its base URL, the `token` query parameter, the request path `/` and the rendering of `params` as a query string. It is the parameter `transport`.
- Axios resolves a response whose status is 0 without calling `validateStatus`. That rule belongs to axios, not to this code.
- `statistics()` (src/lib.ts:332-334): a plain GET with no logic.
- `JSON.stringify` of the browser script: the parameter `stringify`.
- JSON decoding of response bodies: the body arrives already decoded as a `JsValue`.
- Header-name case: metadata headers are looked up by exact name. Axios stores response header names in lower case, which the model does not reproduce.
- `src/geocode.ts`: `GeoCode` is a string. `src/types.ts` and `tests/lib.test.ts` are not part of this model.
- Promises: one call returns one result or one thrown error.
- JavaScript lists integer-like keys of an object first, in ascending order. The model keeps insertion order for every key.
- Assigning the key `__proto__` sets the prototype instead of a property. The model treats it like any other key.
- Numbers are integers: no fractions, `NaN` or `-0`.
- Strings are sequences of Unicode code points. JavaScript splits a spread string into UTF-16 code units, and `encodeURIComponent` throws on lone surrogates; neither is modelled.
- `JsValues.Field` reads properties that are neither array indices nor `length`. These are the only ones the code reads.
- Options outside the `DoRequest` type (extra properties, or `null` for an optional field) are not modelled. `...options` would copy them into the parameters.
- Compiler.PrefixKeysLookup: covers only a header name that a single extra key maps to. When two keys collide (`foo` and `sd-foo`), the later entry's value, given by `Compiler.MergeHeadersLookup`, is not restated per key.
