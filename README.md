# httpkg request builder and cookie parser, in Dafny

This project models two sequential pieces of the Go package `httpkg`, a
fluent HTTP request builder on top of fasthttp:

- **The cookie-line parser** `readCookies` (cookie.go). It turns a line such
  as `a=1; b=2` into an ordered list of name/value records. It trims the
  line, cuts it at each `;`, trims each segment and skips blank ones, and
  splits each remaining segment at its first `=`. It validates nothing.
- **The request builder** `http` (http.go). It is modelled as a class whose
  methods update its fields in place:
  - the URI, with its query string kept opaque;
  - the query-parameter multi-map `qs`;
  - the timeout, in nanoseconds;
  - the pooled request (method, URI, headers, cookies, body, content length
    and content type) and the pooled response;
  - two counters of how often the pooled request and response were released.

  `method`, `usedH2` and the HTTP/2 host are `const` fields. They are fixed
  at construction and no method can change them.

Go strings are byte strings: `Str = seq<byte>` (module `GoStrings`).
The library helpers the core relies on are defined there with their
contracts:
- `textproto.TrimString` trims ASCII space, tab, CR and LF;
- `strings.Cut`;
- a `Split`/`Join` pair that names what a loop of Cuts computes.

`url.QueryEscape` and its inverse `url.QueryUnescape` are in module
`UrlEscape`. Escaping is percent-encoding as in section 2.1 of RFC 3986 with
upper-case hex digits, except that a space becomes `+`. The unreserved bytes
of section 2.3 of RFC 3986 are kept.

Go's map iteration order is unspecified (http.go:126). `buildQueryString`
therefore takes the key order as a parameter `order`, and `IsKeyOrder` says
it lists every key of `qs` exactly once. Every property of the merged query
string is proved for every such order. Three things outside the package are
parameters:
- the transport: `send`, which maps an `Exchange` (client, request, timeout)
  to the response it leaves and an optional error;
- the URI parser: `parse`;
- the JSON encoder: `encode`.

Edge behaviours are modelled as the code is written, not as one might
expect them:
- With no parameters, the code still cuts the last byte off the existing
  query (http.go:135-136). See `Query.MergeNoParams`.
- With no parameters and an empty existing query, the code slices `[0:-1]`
  and panics. Here that case is a precondition of `BuildQueryString`, `Do`,
  `String`, `Bytes` and `Response`.
- With an empty existing query and some parameters, the result starts with
  `&` (http.go:123-125). See `Query.MergeEnds` and
  `Query.LeadingAmpExample`.
- White space next to `=` in a cookie segment is kept (cookie.go:27).
  `a = 1` gives the name `a ` and the value ` 1`. See
  `Cookies.SpacesAroundEqualsKept`.
- `String`, `Bytes` and `Response` release the pooled request and response
  only on success; on a transport error they return before the deferred
  release is registered (http.go:212-219).
- `Url` stores whatever URI the parser leaves; a parse error is only printed
  (http.go:81-84).

## Model

| member | source | states |
|---|---|---|
| GoStrings.TrimString | cookie.go:18 | The trimmed text neither starts nor ends with ASCII white space. |
| GoStrings.TrimStringBlank | cookie.go:23-26 | A segment trims to nothing exactly when it is all white space. |
| GoStrings.TrimStringCount | cookie.go:23 | Trimming never adds a byte: a `;` absent before is absent after. |
| GoStrings.TrimStringPadded | cookie.go:18 | White space in front of unpadded text trims away to exactly that text. |
| GoStrings.CutSpec | cookie.go:22 | Cut finds the separator exactly when it occurs. The part before holds no separator. When found, the input is before + separator + after. When not found, before is the whole input and after is empty. |
| GoStrings.CutAt | cookie.go:27 | Cutting `a + sep + b`, where `a` holds no `sep`, gives exactly `a` and `b`. |
| GoStrings.SplitParts | cookie.go:21-22 | `Split`'s parts number one more than the `;`s, none holds a `;`, and joined with `;` they give back the line. They are the segments the loop visits plus, when the trimmed line ends in `;` or is empty, one empty segment, which yields no record. |
| GoStrings.SplitJoin | cookie.go:21-22 | Splitting the join of separator-free parts gives back those parts. |
| Cookies.SegmentCookieSpec | cookie.go:27 | A segment splits at its first `=` only. The name holds no `=`. Without `=`, the name is the whole segment and the value is empty. |
| Cookies.Segment | cookie.go:23-28 | One segment adds at most one record. |
| Cookies.Records | cookie.go:21-29 | The segments add at most one record each. |
| Cookies.SegmentParsed | cookie.go:22-28 | A segment free of `;` yields no record or one well-formed record. |
| Cookies.RecordsParsed | cookie.go:21-29 | Every record from `;`-free segments is well formed: no `;` anywhere, no `=` in the name, no leading white space in the name, no trailing white space in the value. |
| Cookies.CookieLine | cookie.go:13-31 | An empty line gives no records. There are at most count(`;`) + 1 records, and every record is well formed. |
| Cookies.ReadCookies | cookie.go:13-31 | The loop returns exactly `CookieLine(line)`. It ends because the rest of the line shrinks on every turn. |
| Cookies.ReadStep | cookie.go:21-28 | One loop turn keeps the invariant: the records collected plus those of the rest are those of the line. |
| Cookies.RecordsStep | cookie.go:21-22 | The rest's records are those before its first `;`, then those after it. An empty rest has none. |
| Cookies.RecordsConcat | cookie.go:21-29 | Records follow segment order and nothing is merged: the records of two segment lists are the concatenation. |
| Cookies.SegmentRecord | cookie.go:23-28 | A segment trims to nothing exactly when it is all white space, and then adds nothing. Any other segment adds exactly the record cut from its trimmed text. |
| Cookies.CookieRoundTrip | cookie.go:13-31 | Well-formed records rendered as `n1=v1; n2=v2` parse back to the same list, repeated names included. |
| Cookies.SpacesAroundEqualsKept | cookie.go:27 | `a = 1` parses to the name `a ` and the value ` 1`. |
| UrlEscape.HexDigit | http.go:128 | The escaper writes an upper-case hex digit, and the unescaper reads it back as the same nibble. |
| UrlEscape.EscapeByte | http.go:128 | One byte becomes 1 to 3 bytes, none of them `&`, `=` or `;`. |
| UrlEscape.QueryEscape | http.go:128-130 | An escaped key or value never holds `&` or `=`. It is 1 to 3 times the input's length. |
| UrlEscape.UnescapeEscape | http.go:128-130 | Unescaping an escaped string gives back that string. |
| UrlEscape.EscapeInjective | http.go:128-130 | Distinct keys or values stay distinct once escaped. |
| Query.AddParam | http.go:111-118 | `v` goes after the key's earlier values, or starts the list of a new key. No other key changes. Lists stay non-empty. |
| Query.TerminatedConcat | http.go:126-133 | What the loops write for two runs of pairs is what they write for each, one after the other. |
| Query.AppendPair | http.go:128-131 | Writing one more pair appends exactly `esc(k)=esc(v)&`. |
| Query.WritePair | http.go:127-132 | One turn of the inner loop writes the next value's pair after the pairs so far. |
| Query.EntriesStep | http.go:126-133 | One turn of the outer loop writes the next key's pairs after the pairs so far. |
| Query.TerminatedJoin | http.go:124-136 | The written pairs are the `&`-joined pairs followed by one `&`. |
| Query.EntriesValues | http.go:126-127 | In any distinct key order, a key's pairs carry its stored values in insertion order. A key not in the order has none. |
| Query.EntriesCount | http.go:126-127 | In every key order, one pair is written per stored value. |
| Query.MergeNoParams | http.go:123-136 | As written: with no parameters, the result is the existing query minus its last byte. |
| Query.MergeShape | http.go:123-136 | With parameters, in every key order, the result is the existing query, `&`, then the pairs joined by `&`. |
| Query.MergeEnds | http.go:123-136 | With parameters, the result never ends with `&`. It starts with `&` when the existing query is empty. |
| Query.DecodeJoined | http.go:126-133 | Reading the `&`-joined pairs back (split at `&`, cut at the first `=`, unescape) gives the pairs written. |
| Query.MergeRecoversParams | http.go:120-138 | In every key order, the result is the existing query and `&`, followed by text that reads back as one pair per stored value. The pairs of each key are exactly its stored values in insertion order, and no other key has any. |
| Query.ParamValues | http.go:111-118 | After Param(k, v), in every key order, `k`'s pairs are its earlier values then `v`. Every other key's pairs are unchanged. |
| Query.ParamCount | http.go:111-118 | After Param(k, v), in every key order, exactly one more pair is written. |
| Query.ParamTotal | http.go:111-118 | Param stores exactly one more value. |
| Query.TotalValuesRemove | http.go:126 | The value count does not depend on which key is taken first. |
| Query.LeadingAmpExample | http.go:123-125 | As written: with no existing query, `a=1` becomes `&a=1`. |
| HttpBuilder.EffectiveTimeout | http.go:194-196 | The timeout sent with is positive. A positive timeout is kept and any other becomes 60 seconds. |
| HttpBuilder.Http.New | http.go:39-53 | A new builder uses HTTP/1.1 and has the given method, no parameters, an empty URI, fresh request and response, zero releases, and a zero timeout. |
| HttpBuilder.Http.NewH2 | http.go:57-78 | The same, except that usedH2 is set and the host client is bound to `host`. |
| HttpBuilder.Http.Url | http.go:80-86 | The URI becomes what the parser leaves. Nothing else changes. |
| HttpBuilder.Http.Scheme | http.go:88-91 | Only the URI's scheme changes. |
| HttpBuilder.Http.Header | http.go:93-96 | The header pair is appended to the request's headers. Nothing else changes. |
| HttpBuilder.Http.SetCookie | http.go:98-101 | The cookie pair is appended to the request's cookies. Nothing else changes. |
| HttpBuilder.Http.SetCookieKVs | http.go:103-109 | The request's cookies gain one pair per record of `readCookies(kvs)`, in the parser's order. Nothing else changes. |
| HttpBuilder.Http.Param | http.go:111-118 | `qs` becomes `AddParam(qs, k, v)`, and the builder invariant is kept. |
| HttpBuilder.Http.BuildQueryString | http.go:120-138 | The nested loops over the key order return exactly `MergeQuery(uri.query, qs, order)`. |
| HttpBuilder.Http.Body | http.go:140-154 | A string or []byte payload becomes the body, and the content length becomes its length. Any other payload changes nothing. |
| HttpBuilder.Http.JsonBody | http.go:166-177 | A nil argument changes nothing and returns no error. An encoder error is returned wrapped with the fixed message, and the request is unchanged. On success the body, the content length and the content type `application/json` are set. |
| HttpBuilder.Http.ContentType | http.go:179-182 | Only the request's content type changes. |
| HttpBuilder.Http.SetTimeout | http.go:184-187 | Only the timeout changes. |
| HttpBuilder.Http.Do | http.go:189-209 | The merged query is stored in the URI, and the URI and method are copied into the request. The effective timeout is written back into the field. The request goes through the HTTP/2 host client exactly when usedH2 holds. The transport's error is returned unchanged. Parameters and releases are untouched. |
| HttpBuilder.Http.Release | http.go:216-219 | The pooled response and request are released once each. |
| HttpBuilder.Http.String | http.go:211-222 | Leaves everything `do` leaves, and returns the transport's error unchanged. On an error it returns an empty string and releases nothing. On success it returns the response body and releases each pooled object exactly once. |
| HttpBuilder.Http.Bytes | http.go:224-235 | The same, returning the body bytes. |
| HttpBuilder.Http.Response | http.go:237-249 | The same, returning a copy of the response. |
| HttpBuilder.Get | http.go:251-254 | A fresh HTTP/1.1 GET builder with no host, whose URI is the parsed URL, with no parameters, a zero timeout, an empty request and response, and no releases. |
| HttpBuilder.Post | http.go:256-259 | A fresh HTTP/1.1 POST builder with no host, whose URI is the parsed URL, with no parameters, a zero timeout, an empty request and response, and no releases. |
| HttpBuilder.GetH2 | http.go:261-265 | A fresh HTTP/2 GET builder bound to `host`, whose URI is the parsed URL, with no parameters, a zero timeout, an empty request and response, and no releases. |
| HttpBuilder.PostH2 | http.go:267-271 | A fresh HTTP/2 POST builder bound to `host`, whose URI is the parsed URL, with no parameters, a zero timeout, an empty request and response, and no releases. |

## Left out

- The transport: `fasthttp.Client.DoTimeout` and `HostClient.DoTimeout`
  (http.go:197-207) are network I/O. They are the parameter `send`. The
  response object is whatever `send` leaves, on success and on failure.
- `http2.ConfigureClient` and the panic in `newH2` when it fails
  (http.go:62-65). This is foreign library code, so `NewH2` always succeeds.
- The URI parser `fasthttp.URI.Parse` (http.go:81) is the parameter `parse`.
  Its error is only printed, so `Url` stores whatever URI the parser leaves.
- The internals of `URI.SetScheme`, `URI.SetQueryString`, `Request.SetURI`,
  `RequestHeader.Add` and `RequestHeader.SetCookie` are foreign:
  - the scheme is stored as given;
  - headers and cookies are append-only lists of pairs;
  - fasthttp's replacement of a cookie with the same name is not modelled.
- The `encoding/json` encoder and `JSONMarshal` (http.go:156-164): it returns
  exactly the encoder's bytes or its error, so it is the parameter `encode`
  itself.
- The `fmt.Println` diagnostics (http.go:83, 151) are output only. They are
  no-ops here.
- Object pooling (`Acquire*`/`Release*`) is modelled only as release
  counters. Using an object after its release is not modelled. `Bytes`
  returns a value, so the aliasing of the returned slice with the released
  pooled buffer is not captured. `Response.CopyTo` is a value copy.
- The `contentType` field of the struct (http.go:35) is never read or
  written. The `c` and `h2c` client fields are replaced by the client choice
  `Route`.
- Method chaining: builder methods return nothing, or only their error
  result, instead of the `*http` receiver.
- `readCookies` returns `[]*Cookie`. Here it returns a list of values, and its
  capacity pre-allocation (cookie.go:17) is not modelled.
- `time.Duration` is a 64-bit count of nanoseconds. Here integers are
  unbounded. 60 seconds is well inside the 64-bit range, and the timeout is
  otherwise only stored and passed on.
