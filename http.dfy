/**
 * The fluent request builder of http.go. A builder holds a URI, the query
 * parameters added so far, a timeout and the pooled request and response
 * objects; its methods change them in place, and the terminal methods send
 * the request and release the pooled objects.
 *
 * What lies outside the package is a parameter: the transport (`send`), the
 * URI parser (`parse`) and the JSON encoder (`encode`). Go's map iteration
 * order is the parameter `order`, any listing of the parameter keys.
 */
module HttpBuilder {
  import opened Wrappers
  import opened GoStrings
  import Cookies
  import opened Query
  import opened UrlEscape

  const MethodGet: Str := Ascii("GET")
  const MethodHead: Str := Ascii("HEAD")
  const MethodPost: Str := Ascii("POST")
  const MethodPut: Str := Ascii("PUT")
  const MethodPatch: Str := Ascii("PATCH")
  const MethodDelete: Str := Ascii("DELETE")
  const MethodConnect: Str := Ascii("CONNECT")
  const MethodOptions: Str := Ascii("OPTIONS")
  const MethodTrace: Str := Ascii("TRACE")

  /** time.Duration counts nanoseconds. */
  const Second: int := 1_000_000_000
  /** The timeout used when none (or a non-positive one) was set. */
  const DefaultTimeout: int := 60 * Second

  const ApplicationJson: Str := Ascii("application/json")
  /** The message JsonBody wraps an encoder error in. */
  const JsonBodyContext: Str := Ascii("obj could not be converted to JSON body")

  /** The parts of a fasthttp URI the builder reads or writes; the query string is opaque. */
  datatype Uri = Uri(scheme: Str, hostAndPath: Str, query: Str)

  const EmptyUri: Uri := Uri([], [], [])

  /** The pooled request: headers and cookies are append-only lists of pairs. */
  datatype Request = Request(
    requestMethod: Str,
    uri: Uri,
    headers: seq<(Str, Str)>,
    cookies: seq<(Str, Str)>,
    body: Str,
    contentLength: int,
    contentType: Str)

  const EmptyRequest: Request := Request([], EmptyUri, [], [], [], 0, [])

  datatype HttpResponse = HttpResponse(statusCode: int, body: Str)

  const EmptyResponse: HttpResponse := HttpResponse(0, [])

  /** A transport or encoder error, or one wrapped with a context message. */
  datatype Error = Error(message: Str) | Wrapped(context: Str, cause: Error)

  /** The dynamic type of Body's argument: a string, a []byte, or anything else. */
  datatype Payload = Text(text: Str) | Raw(data: Str) | Unsupported

  /** The HTTP/1.1 client, or the HTTP/2 host client bound to an address. */
  datatype Client = PlainClient | HostClient(addr: Str)

  /** What the transport is asked to do: which client sends which request, within which timeout. */
  datatype Exchange = Exchange(client: Client, request: Request, timeout: int)

  /** What the transport leaves behind: the response object, and an error if it failed. */
  datatype Reply = Reply(response: HttpResponse, error: Option<Error>)

  /** The timeout `do` sends with and stores: a positive one is kept, any other becomes 60 s. */
  function EffectiveTimeout(t: int): (d: int)
    ensures d > 0
    ensures t > 0 ==> d == t
    ensures t <= 0 ==> d == DefaultTimeout
  {
    if t <= 0 then Second * 60 else t
  }

  /** The records readCookies returns, as the name/value pairs SetCookie receives. */
  function CookiePairs(cs: seq<Cookies.Cookie>): (ps: seq<(Str, Str)>)
    ensures |ps| == |cs|
  {
    seq(|cs|, i requires 0 <= i < |cs| => (cs[i].name, cs[i].value))
  }

  lemma CookiePairsStep(cs: seq<Cookies.Cookie>, i: nat)
    requires i < |cs|
    ensures CookiePairs(cs[..i + 1]) == CookiePairs(cs[..i]) + [(cs[i].name, cs[i].value)]
  {
  }

  class Http {
    /** Fixed at construction: the request method, and whether HTTP/2 is used and towards which host. */
    const requestMethod: Str
    const usedH2: bool
    const h2Addr: Str

    var uri: Uri
    var qs: Params
    var timeout: int
    var req: Request
    var resp: HttpResponse
    /** How many times the pooled request and response were handed back. */
    var reqReleases: nat
    var respReleases: nat

    /** Every stored key has a value, and only an HTTP/2 builder has a host. */
    predicate Valid()
      reads this
    {
      NonEmptyLists(qs) && (!usedH2 ==> h2Addr == [])
    }

    /** The client `do` sends through: the HTTP/2 host client exactly when usedH2 holds. */
    function Route(): Client {
      if usedH2 then HostClient(h2Addr) else PlainClient
    }

    /** new / New: an HTTP/1.1 builder with fresh pooled objects and no parameters. */
    constructor New(requestMethod: Str)
      ensures this.requestMethod == requestMethod && !usedH2 && h2Addr == []
      ensures uri == EmptyUri && qs == map[] && timeout == 0
      ensures req == EmptyRequest && resp == EmptyResponse
      ensures reqReleases == 0 && respReleases == 0
      ensures Valid()
    {
      this.requestMethod := requestMethod;
      usedH2 := false;
      h2Addr := [];
      uri := EmptyUri;
      qs := map[];
      timeout := 0;
      req := EmptyRequest;
      resp := EmptyResponse;
      reqReleases := 0;
      respReleases := 0;
    }

    /** newH2 / NewH2: the same, sending through an HTTP/2 host client for `host`. */
    constructor NewH2(requestMethod: Str, host: Str)
      ensures this.requestMethod == requestMethod && usedH2 && h2Addr == host
      ensures uri == EmptyUri && qs == map[] && timeout == 0
      ensures req == EmptyRequest && resp == EmptyResponse
      ensures reqReleases == 0 && respReleases == 0
      ensures Valid()
    {
      this.requestMethod := requestMethod;
      usedH2 := true;
      h2Addr := host;
      uri := EmptyUri;
      qs := map[];
      timeout := 0;
      req := EmptyRequest;
      resp := EmptyResponse;
      reqReleases := 0;
      respReleases := 0;
    }

    /** The URI becomes whatever the parser leaves in it; a parse error is only reported. */
    method Url(rawUrl: Str, parse: Str -> Uri)
      modifies this`uri
      ensures uri == parse(rawUrl)
    {
      uri := parse(rawUrl);
    }

    method Scheme(scheme: Str)
      modifies this`uri
      ensures uri == old(uri).(scheme := scheme)
    {
      uri := uri.(scheme := scheme);
    }

    method Header(k: Str, v: Str)
      modifies this`req
      ensures req == old(req).(headers := old(req.headers) + [(k, v)])
    {
      req := req.(headers := req.headers + [(k, v)]);
    }

    method SetCookie(k: Str, v: Str)
      modifies this`req
      ensures req == old(req).(cookies := old(req.cookies) + [(k, v)])
    {
      req := req.(cookies := req.cookies + [(k, v)]);
    }

    /** One SetCookie per record of the line, in the parser's order. */
    method SetCookieKVs(kvs: Str)
      modifies this`req
      ensures req == old(req).(cookies := old(req.cookies) + CookiePairs(Cookies.CookieLine(kvs)))
    {
      var cookies := Cookies.ReadCookies(kvs);
      for i := 0 to |cookies|
        invariant req.cookies == old(req.cookies) + CookiePairs(cookies[..i])
        invariant req == old(req).(cookies := req.cookies)
      {
        CookiePairsStep(cookies, i);
        SetCookie(cookies[i].name, cookies[i].value);
      }
      assert cookies[..|cookies|] == cookies;
    }

    /** `v` is appended to the values of `k`; every other key keeps its values. */
    method Param(k: Str, v: Str)
      modifies this`qs
      ensures qs == AddParam(old(qs), k, v)
      ensures old(Valid()) ==> Valid()
    {
      if k in qs {
        qs := qs[k := qs[k] + [v]];
      } else {
        qs := qs[k := [v]];
      }
    }

    /**
     * buildQueryString, iterating the keys in `order`: the existing query,
     * then for parameters '&' and "esc(k)=esc(v)&" per value; then the last
     * byte is cut off.
     */
    method BuildQueryString(order: seq<Str>) returns (q: Str)
      requires IsKeyOrder(order, qs)
      requires |uri.query| > 0 || |qs| > 0
      ensures q == MergeQuery(uri.query, qs, order)
    {
      var buf := uri.query;
      if |qs| > 0 {
        buf := buf + [AMP];
        ghost var base := buf;
        for i := 0 to |order|
          invariant buf == base + Terminated(Entries(qs, order[..i]))
        {
          var k := order[i];
          var vs := qs[k];
          ghost var done := Entries(qs, order[..i]);
          StartKey(done, k, vs);
          for j := 0 to |vs|
            invariant buf == base + Terminated(done + Tag(k, vs[..j]))
          {
            WritePair(base, done, k, vs, j);
            buf := buf + QueryEscape(k);
            buf := buf + [EQ];
            buf := buf + QueryEscape(vs[j]);
            buf := buf + [AMP];
          }
          assert vs[..|vs|] == vs;
          EntriesStep(qs, order, i);
        }
        assert order[..|order|] == order;
      }
      q := buf[..|buf| - 1];
    }

    /** A string or []byte payload becomes the body and sets the content length; any other is ignored. */
    method Body(body: Payload)
      modifies this`req
      ensures body.Text? ==> req == old(req).(body := body.text, contentLength := |body.text|)
      ensures body.Raw? ==> req == old(req).(body := body.data, contentLength := |body.data|)
      ensures body.Unsupported? ==> req == old(req)
    {
      match body
      case Text(t) =>
        req := req.(body := t, contentLength := |t|);
      case Raw(b) =>
        req := req.(body := b, contentLength := |b|);
      case Unsupported =>
    }

    /**
     * A nil argument changes nothing; an encoder error is returned wrapped and
     * changes nothing; otherwise the encoding becomes the body, with its length
     * and the JSON content type.
     */
    method JsonBody<V>(body: Option<V>, encode: V -> Result<Str, Error>) returns (err: Option<Error>)
      modifies this`req
      ensures body.None? ==> err.None? && req == old(req)
      ensures body.Some? && encode(body.value).Failure? ==>
        err == Some(Wrapped(JsonBodyContext, encode(body.value).error)) && req == old(req)
      ensures body.Some? && encode(body.value).Success? ==>
        var b := encode(body.value).value;
        err.None? && req == old(req).(body := b, contentLength := |b|, contentType := ApplicationJson)
    {
      if body.Some? {
        var r := encode(body.value);
        if r.Failure? {
          return Some(Wrapped(JsonBodyContext, r.error));
        }
        var b := r.value;
        req := req.(body := b);
        req := req.(contentLength := |b|);
        req := req.(contentType := ApplicationJson);
      }
      return None;
    }

    method ContentType(ct: Str)
      modifies this`req
      ensures req == old(req).(contentType := ct)
    {
      req := req.(contentType := ct);
    }

    method SetTimeout(dur: int)
      modifies this`timeout
      ensures timeout == dur
    {
      timeout := dur;
    }

    /**
     * What `do` leaves behind when it was given `order` and `send`: the merged
     * query stored in the URI, the URI and method copied into the request, the
     * effective timeout stored, and the transport's response object in place;
     * the parameters are untouched and each pooled object was released
     * `released` more times.
     */
    twostate predicate Sent(order: seq<Str>, send: Exchange -> Reply, released: nat)
      reads this
    {
      && old(IsKeyOrder(order, qs))
      && old(|uri.query| > 0 || |qs| > 0)
      && qs == old(qs)
      && uri == old(uri).(query := MergeQuery(old(uri.query), old(qs), order))
      && req == old(req).(uri := uri, requestMethod := requestMethod)
      && timeout == EffectiveTimeout(old(timeout))
      && resp == send(Exchange(Route(), req, timeout)).response
      && reqReleases == old(reqReleases) + released
      && respReleases == old(respReleases) + released
    }

    /** do: builds and stores the query, prepares the request and sends it; a transport error is returned as is. */
    method Do(order: seq<Str>, send: Exchange -> Reply) returns (err: Option<Error>)
      requires IsKeyOrder(order, qs)
      requires |uri.query| > 0 || |qs| > 0
      modifies this`uri, this`req, this`timeout, this`resp
      ensures Sent(order, send, 0)
      ensures err == send(Exchange(Route(), req, timeout)).error
    {
      var q := BuildQueryString(order);
      uri := uri.(query := q);
      req := req.(uri := uri);
      req := req.(requestMethod := requestMethod);
      if timeout <= 0 {
        timeout := Second * 60;
      }
      var reply: Reply;
      if usedH2 {
        reply := send(Exchange(HostClient(h2Addr), req, timeout));
      } else {
        reply := send(Exchange(PlainClient, req, timeout));
      }
      resp := reply.response;
      if reply.error.Some? {
        return reply.error;
      }
      return None;
    }

    /** Hands the pooled response and request back, once each. */
    method Release()
      modifies this`reqReleases, this`respReleases
      ensures respReleases == old(respReleases) + 1 && reqReleases == old(reqReleases) + 1
    {
      respReleases := respReleases + 1;
      reqReleases := reqReleases + 1;
    }

    /** Sends; on success returns the response body as text and releases both pooled objects. */
    method String(order: seq<Str>, send: Exchange -> Reply) returns (s: Str, err: Option<Error>)
      requires IsKeyOrder(order, qs)
      requires |uri.query| > 0 || |qs| > 0
      modifies this`uri, this`req, this`timeout, this`resp, this`reqReleases, this`respReleases
      ensures err == send(Exchange(Route(), req, timeout)).error
      ensures err.Some? ==> Sent(order, send, 0) && s == []
      ensures err.None? ==> Sent(order, send, 1) && s == resp.body
    {
      err := Do(order, send);
      if err.Some? {
        return [], err;
      }
      s := resp.body;
      Release();
    }

    /** Sends; on success returns the response body bytes and releases both pooled objects. */
    method Bytes(order: seq<Str>, send: Exchange -> Reply) returns (b: Str, err: Option<Error>)
      requires IsKeyOrder(order, qs)
      requires |uri.query| > 0 || |qs| > 0
      modifies this`uri, this`req, this`timeout, this`resp, this`reqReleases, this`respReleases
      ensures err == send(Exchange(Route(), req, timeout)).error
      ensures err.Some? ==> Sent(order, send, 0) && b == []
      ensures err.None? ==> Sent(order, send, 1) && b == resp.body
    {
      err := Do(order, send);
      if err.Some? {
        return [], err;
      }
      b := resp.body;
      Release();
    }

    /** Sends; on success returns a copy of the response and releases both pooled objects. */
    method Response(order: seq<Str>, send: Exchange -> Reply) returns (r: Option<HttpResponse>, err: Option<Error>)
      requires IsKeyOrder(order, qs)
      requires |uri.query| > 0 || |qs| > 0
      modifies this`uri, this`req, this`timeout, this`resp, this`reqReleases, this`respReleases
      ensures err == send(Exchange(Route(), req, timeout)).error
      ensures err.Some? ==> Sent(order, send, 0) && r.None?
      ensures err.None? ==> Sent(order, send, 1) && r == Some(resp)
    {
      err := Do(order, send);
      if err.Some? {
        return None, err;
      }
      r := Some(resp);
      Release();
    }
  }

  /** Get: a GET builder for the parsed URL. */
  method Get(url: Str, parse: Str -> Uri) returns (h: Http)
    ensures fresh(h) && h.Valid()
    ensures h.requestMethod == MethodGet && !h.usedH2 && h.h2Addr == []
    ensures h.uri == parse(url) && h.qs == map[] && h.timeout == 0
    ensures h.req == EmptyRequest && h.resp == EmptyResponse
    ensures h.reqReleases == 0 && h.respReleases == 0
  {
    h := new Http.New(MethodGet);
    h.Url(url, parse);
  }

  /** Post: a POST builder for the parsed URL. */
  method Post(url: Str, parse: Str -> Uri) returns (h: Http)
    ensures fresh(h) && h.Valid()
    ensures h.requestMethod == MethodPost && !h.usedH2 && h.h2Addr == []
    ensures h.uri == parse(url) && h.qs == map[] && h.timeout == 0
    ensures h.req == EmptyRequest && h.resp == EmptyResponse
    ensures h.reqReleases == 0 && h.respReleases == 0
  {
    h := new Http.New(MethodPost);
    h.Url(url, parse);
  }

  /** GetH2: a GET builder sending through an HTTP/2 host client for `host`. */
  method GetH2(url: Str, host: Str, parse: Str -> Uri) returns (h: Http)
    ensures fresh(h) && h.Valid()
    ensures h.requestMethod == MethodGet && h.usedH2 && h.h2Addr == host
    ensures h.uri == parse(url) && h.qs == map[] && h.timeout == 0
    ensures h.req == EmptyRequest && h.resp == EmptyResponse
    ensures h.reqReleases == 0 && h.respReleases == 0
  {
    h := new Http.NewH2(MethodGet, host);
    h.Url(url, parse);
  }

  /** PostH2: a POST builder sending through an HTTP/2 host client for `host`. */
  method PostH2(url: Str, host: Str, parse: Str -> Uri) returns (h: Http)
    ensures fresh(h) && h.Valid()
    ensures h.requestMethod == MethodPost && h.usedH2 && h.h2Addr == host
    ensures h.uri == parse(url) && h.qs == map[] && h.timeout == 0
    ensures h.req == EmptyRequest && h.resp == EmptyResponse
    ensures h.reqReleases == 0 && h.respReleases == 0
  {
    h := new Http.NewH2(MethodPost, host);
    h.Url(url, parse);
  }
}
