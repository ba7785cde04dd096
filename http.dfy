/**
 * The outbound HTTP client: building the outbound request, applying the
 * supplied headers, copying cookies, trace propagation, the status window,
 * the error shapes and the completion log line.
 */
module Lib {
  import opened Wrappers
  import Net
  import Log

  /** The correlation-ID header and context key. */
  const CorrelationID := "X-B3-Traceid"

  type Bytes = seq<bv8>

  /** The outbound *http.Request: method, URI and body are fixed; the header map is filled in place. */
  class Outbound {
    const httpMethod: string
    const uri: string
    const body: Bytes
    var header: Net.Header

    /** http.NewRequest when it succeeds: an empty method means GET; the header starts empty. */
    constructor (httpMethod: string, uri: string, body: Bytes)
      ensures this.httpMethod == (if httpMethod == "" then "GET" else httpMethod)
      ensures this.uri == uri && this.body == body && header == map[]
    {
      this.httpMethod := if httpMethod == "" then "GET" else httpMethod;
      this.uri := uri;
      this.body := body;
      header := map[];
    }
  }

  /** `pairs` lists the map `m` as a range loop visits it: every entry exactly once. */
  predicate IsListing(pairs: seq<(string, string)>, m: map<string, string>) {
    && (forall i :: 0 <= i < |pairs| ==> pairs[i].0 in m && m[pairs[i].0] == pairs[i].1)
    && (forall k :: k in m ==> exists i :: 0 <= i < |pairs| && pairs[i].0 == k)
    && (forall i, j :: 0 <= i < j < |pairs| ==> pairs[i].0 != pairs[j].0)
  }

  /** The header loop of HTTPRequest: each supplied entry is set with Header.Set, in iteration order. */
  method ApplyHeaders(req: Outbound, pairs: seq<(string, string)>)
    modifies req
    ensures req.header == Net.SetAll(old(req.header), pairs)
  {
    for i := 0 to |pairs|
      invariant req.header == Net.SetAll(old(req.header), pairs[..i])
    {
      assert pairs[..i + 1][..i] == pairs[..i];
      req.header := Net.Set(req.header, pairs[i].0, pairs[i].1);
    }
    assert pairs[..|pairs|] == pairs;
  }

  /**
   * Every supplied header whose canonical key no other supplied key shares
   * ends up holding exactly its supplied value.
   */
  lemma SuppliedHeaderSet(h: Net.Header, pairs: seq<(string, string)>, headers: map<string, string>, k: string)
    requires IsListing(pairs, headers)
    requires k in headers
    requires forall k' :: k' in headers && Net.CanonicalKey(k') == Net.CanonicalKey(k) ==> k' == k
    ensures Net.CanonicalKey(k) in Net.SetAll(h, pairs)
    ensures Net.SetAll(h, pairs)[Net.CanonicalKey(k)] == [headers[k]]
    ensures Net.Get(Net.SetAll(h, pairs), k) == headers[k]
  {
    var i :| 0 <= i < |pairs| && pairs[i].0 == k;
    forall j | i < j < |pairs| ensures Net.CanonicalKey(pairs[j].0) != Net.CanonicalKey(pairs[i].0) {
    }
    Net.SetAllLastWins(h, pairs, i);
  }

  /** The Cookie header after AddCookie for each cookie in order. */
  function CopiedCookies(h: Net.Header, cookies: seq<Net.Cookie>): Net.Header {
    if cookies == [] then h
    else Net.AddCookie(CopiedCookies(h, cookies[..|cookies| - 1]), cookies[|cookies| - 1])
  }

  /** "n1=v1; n2=v2; ..." for the cookies in order. */
  function JoinCookies(cookies: seq<Net.Cookie>): string
    requires |cookies| > 0
  {
    if |cookies| == 1 then Net.CookiePair(cookies[0])
    else JoinCookies(cookies[..|cookies| - 1]) + "; " + Net.CookiePair(cookies[|cookies| - 1])
  }

  /** The cookie loop of HTTPRequest: each inbound cookie is added to the outbound request. */
  method CopyCookies(req: Outbound, cookies: seq<Net.Cookie>)
    modifies req
    ensures req.header == CopiedCookies(old(req.header), cookies)
  {
    for i := 0 to |cookies|
      invariant req.header == CopiedCookies(old(req.header), cookies[..i])
    {
      assert cookies[..i + 1][..i] == cookies[..i];
      req.header := Net.AddCookie(req.header, cookies[i]);
    }
    assert cookies[..|cookies|] == cookies;
  }

  /**
   * After copying, the Cookie header is the prior value (when non-empty),
   * "; ", and then every cookie's "name=value" in order, separated by "; ".
   */
  lemma {:induction false} CopiedCookieHeader(h: Net.Header, cookies: seq<Net.Cookie>)
    requires |cookies| > 0
    ensures var prior := Net.Get(h, "Cookie");
      Net.Get(CopiedCookies(h, cookies), "Cookie")
        == (if prior != "" then prior + "; " else "") + JoinCookies(cookies)
  {
    var prior := Net.Get(h, "Cookie");
    var lead := if prior != "" then prior + "; " else "";
    var init, last := cookies[..|cookies| - 1], cookies[|cookies| - 1];
    var before := CopiedCookies(h, init);
    var pair := Net.CookiePair(last);
    assert Net.Get(CopiedCookies(h, cookies), "Cookie")
        == (if Net.Get(before, "Cookie") != "" then Net.Get(before, "Cookie") + "; " else "") + pair by {
      assert CopiedCookies(h, cookies) == Net.AddCookie(before, last);
      CookieAfterAdd(before, last);
    }
    if |cookies| > 1 {
      assert Net.Get(before, "Cookie") == lead + JoinCookies(init) && Net.Get(before, "Cookie") != "" by {
        CopiedCookieHeader(h, init);
        JoinCookiesNonEmpty(init);
      }
      assert JoinCookies(cookies) == JoinCookies(init) + "; " + pair;
      AppendAssoc(lead + JoinCookies(init), "; ", pair);
      AppendAssoc(lead, JoinCookies(init), "; " + pair);
      AppendAssoc(JoinCookies(init), "; ", pair);
    } else {
      assert init == [];
      assert JoinCookies(cookies) == pair;
    }
  }

  lemma AppendAssoc(a: string, b: string, c: string)
    ensures a + b + c == a + (b + c)
  {
  }

  /** The Cookie value after one AddCookie: the prior value and "; " when there was one, then "name=value". */
  lemma CookieAfterAdd(h: Net.Header, c: Net.Cookie)
    ensures var prior := Net.Get(h, "Cookie");
      Net.Get(Net.AddCookie(h, c), "Cookie") == (if prior != "" then prior + "; " else "") + Net.CookiePair(c)
  {
    var prior := Net.Get(h, "Cookie");
    if prior != "" {
      assert prior + "; " + Net.CookiePair(c) == (prior + "; ") + Net.CookiePair(c);
    } else {
      assert "" + Net.CookiePair(c) == Net.CookiePair(c);
    }
  }

  lemma {:induction false} JoinCookiesNonEmpty(cookies: seq<Net.Cookie>)
    requires |cookies| > 0
    ensures |JoinCookies(cookies)| > 0
  {
    if |cookies| > 1 {
      JoinCookiesNonEmpty(cookies[..|cookies| - 1]);
    } else {
      assert |Net.CookiePair(cookies[0])| > 0;
    }
  }

  /** Copying cookies touches no header except Cookie. */
  lemma {:induction false} CopiedCookiesOnlyCookie(h: Net.Header, cookies: seq<Net.Cookie>, k: string)
    requires k != Net.CanonicalKey("Cookie")
    ensures k in CopiedCookies(h, cookies) <==> k in h
    ensures k in h ==> CopiedCookies(h, cookies)[k] == h[k]
  {
    if cookies != [] {
      CopiedCookiesOnlyCookie(h, cookies[..|cookies| - 1], k);
    }
  }

  /** Which of traceRequest's two paths runs. */
  datatype TracePath = CorrelationFallback(id: string) | Injection

  /** The string the inbound context holds under the correlation key, if it holds a string there. */
  function CorrelationValue(ctx: Log.Context): Option<string> {
    match Log.Lookup(ctx, CorrelationID)
    case StringValue(s) => Some(s)
    case _ => None
  }

  /** Fallback iff extraction failed and the context holds a correlation string; injection otherwise. */
  function ChooseTracePath(extracted: bool, ctx: Log.Context): (p: TracePath)
    ensures p.CorrelationFallback? <==> !extracted && Log.Lookup(ctx, CorrelationID).StringValue?
    ensures p.CorrelationFallback? ==> p.id == Log.Lookup(ctx, CorrelationID).s
  {
    if !extracted && CorrelationValue(ctx).Some? then CorrelationFallback(CorrelationValue(ctx).value)
    else Injection
  }

  /** The outbound header after the chosen path: the correlation header set, or the carrier injected. */
  function TracedHeader(h: Net.Header, path: TracePath, carrier: seq<(string, string)>): Net.Header {
    match path
    case CorrelationFallback(id) => Net.Set(h, CorrelationID, id)
    case Injection => Net.SetAll(h, carrier)
  }

  /**
   * traceRequest: when extraction failed and the context holds a correlation
   * string, the correlation header is set to it and nothing is injected;
   * otherwise the tracer writes its carrier into the outbound header.
   */
  method TraceRequest(ctxRequest: Log.Request, workRequest: Outbound, extracted: bool, carrier: seq<(string, string)>)
    modifies workRequest
    ensures workRequest.header == TracedHeader(old(workRequest.header), ChooseTracePath(extracted, ctxRequest.ctx), carrier)
  {
    var v := CorrelationValue(ctxRequest.ctx);
    if v.Some? && !extracted {
      workRequest.header := Net.Set(workRequest.header, CorrelationID, v.value);
      return;
    }
    workRequest.header := Net.SetAll(workRequest.header, carrier);
  }

  lemma CorrelationIDTokens()
    ensures Net.AllTokenChars(CorrelationID)
  {
    var s := CorrelationID;
    forall i | 0 <= i < |s| ensures Net.IsTokenChar(s[i]) {
    }
  }

  /** The correlation key is already in canonical form, so the header is stored under that exact name. */
  lemma CorrelationKeyCanonical()
    ensures Net.CanonicalKey(CorrelationID) == CorrelationID
  {
    var s := CorrelationID;
    assert Net.IsCanonical(s, true) by {
      forall i | 0 <= i < |s| ensures Net.CanonicalAt(s, i, true) {
      }
    }
    Net.CanonicalizeFixes(s, true);
    CorrelationIDTokens();
  }

  /**
   * Exactly one path runs. Fallback: the correlation header carries the
   * inbound string verbatim and the carrier is not written. Injection
   * (extraction succeeded, or no correlation string): the carrier is written
   * and this function sets no correlation header of its own.
   */
  lemma TracePrecedence(h: Net.Header, extracted: bool, ctx: Log.Context, carrier: seq<(string, string)>)
    ensures ChooseTracePath(extracted, ctx).CorrelationFallback?
        <==> !extracted && Log.Lookup(ctx, CorrelationID).StringValue?
    ensures !extracted && Log.Lookup(ctx, CorrelationID).StringValue? ==>
      var r := TracedHeader(h, ChooseTracePath(extracted, ctx), carrier);
      r == Net.Set(h, CorrelationID, Log.Lookup(ctx, CorrelationID).s)
      && Net.Get(r, CorrelationID) == Log.Lookup(ctx, CorrelationID).s
    ensures extracted || !Log.Lookup(ctx, CorrelationID).StringValue? ==>
      TracedHeader(h, ChooseTracePath(extracted, ctx), carrier) == Net.SetAll(h, carrier)
  {
  }

  /** Under injection, a carrier that does not name the correlation header leaves it as it was. */
  lemma InjectionKeepsCorrelation(h: Net.Header, carrier: seq<(string, string)>)
    requires forall j :: 0 <= j < |carrier| ==> Net.CanonicalKey(carrier[j].0) != CorrelationID
    ensures CorrelationID in TracedHeader(h, Injection, carrier) <==> CorrelationID in h
    ensures CorrelationID in h ==> TracedHeader(h, Injection, carrier)[CorrelationID] == h[CorrelationID]
  {
    Net.SetAllUntouched(h, carrier, CorrelationID);
  }

  /** A status code the client accepts. */
  predicate Accepted(statusCode: int): (ok: bool)
    ensures ok <==> !(statusCode >= 400 || statusCode < 200)
  {
    200 <= statusCode < 400
  }

  /**
   * logRequest's cost: the elapsed nanoseconds divided by 1000000 with Go's
   * division, which truncates toward zero: whole milliseconds.
   */
  function DelayMs(begin: int, end: int): (ms: int)
    ensures end >= begin ==> 0 <= ms && ms * 1000000 <= end - begin < (ms + 1) * 1000000
    ensures end < begin ==> ms <= 0 && -ms * 1000000 <= begin - end < (-ms + 1) * 1000000
  {
    var elapsed := end - begin;
    if elapsed >= 0 then elapsed / 1000000 else -((-elapsed) / 1000000)
  }

  /** A call lasting between lo and hi milliseconds reports a delay in [lo, hi]. */
  lemma DelayWithin(begin: int, end: int, lo: nat, hi: nat)
    requires lo * 1000000 <= end - begin <= hi * 1000000
    ensures lo <= DelayMs(begin, end) <= hi
  {
  }

  /**
   * The logger logRequest emits with: the resolved logger derived three
   * times, so three frames deeper, with stat=downstream, url and delayms set.
   */
  function CompletionLogger(l: Log.Logger, url: string, cost: int): (d: Log.Logger)
    ensures d.skip == l.skip + 3
    ensures d.fields.Keys == l.fields.Keys + {"stat", "url", "delayms"}
    ensures d.fields["stat"] == Log.Str("downstream") && d.fields["url"] == Log.Str(url)
    ensures d.fields["delayms"] == Log.Int(cost)
    ensures forall k :: k in l.fields && k !in {"stat", "url", "delayms"} ==> d.fields[k] == l.fields[k]
  {
    Log.WithField(Log.WithField(Log.WithField(l, "stat", Log.Str("downstream")), "url", Log.Str(url)),
                  "delayms", Log.Int(cost))
  }

  /**
   * logRequest: the logger resolved from the inbound request, derived with
   * stat=downstream, url and delayms, emits one info record whose arguments
   * are the method, the URL and the delay.
   */
  function LogRequest(global: Log.Logger, ctxRequest: Log.Request, httpMethod: string, url: string,
                      begin: int, end: int, stack: seq<Log.Frame>): (r: Result<Log.Record>)
    ensures Log.LoggerFromRequest(global, Some(ctxRequest)).Panic? ==> r.Panic?
    ensures Log.LoggerFromRequest(global, Some(ctxRequest)).Ok? ==>
      r == Log.Emit(CompletionLogger(Log.LoggerFromRequest(global, Some(ctxRequest)).value, url, DelayMs(begin, end)),
                    Log.InfoLevel, "Completed %s request %s in %d ms.",
                    [Log.Str(httpMethod), Log.Str(url), Log.Int(DelayMs(begin, end))], stack)
  {
    var cost := DelayMs(begin, end);
    match Log.LoggerFromRequest(global, Some(ctxRequest))
    case Panic(m) => Panic(m)
    case Ok(l) =>
      Log.Emit(CompletionLogger(l, url, cost), Log.InfoLevel, "Completed %s request %s in %d ms.",
               [Log.Str(httpMethod), Log.Str(url), Log.Int(cost)], stack)
  }

  /**
   * The completion record carries stat=downstream, url and delayms next to
   * the call-site fields, at info level; the call site is read three frames
   * deeper than the resolved logger's own depth.
   */
  lemma CompletionRecord(global: Log.Logger, ctxRequest: Log.Request, httpMethod: string, url: string,
                         begin: int, end: int, stack: seq<Log.Frame>)
    requires Log.LoggerFromRequest(global, Some(ctxRequest)).Ok?
    ensures var l := Log.LoggerFromRequest(global, Some(ctxRequest)).value;
      var r := LogRequest(global, ctxRequest, httpMethod, url, begin, end, stack);
      && (r.Ok? <==> Log.CallerInfo(Log.Logger(l.skip + 3, map[]), stack).Ok?)
      && (r.Ok? ==>
          && r.value.level == Log.InfoLevel
          && r.value.fields.Keys == l.fields.Keys + {"stat", "url", "delayms", "file", "line", "func"}
          && r.value.fields["stat"] == Log.Str("downstream")
          && r.value.fields["url"] == Log.Str(url)
          && r.value.fields["delayms"] == Log.Int(DelayMs(begin, end)))
  {
    var l := Log.LoggerFromRequest(global, Some(ctxRequest)).value;
    var d := CompletionLogger(l, url, DelayMs(begin, end));
    assert Log.CallerFrame(stack, d.skip) == Log.CallerFrame(stack, Log.Logger(l.skip + 3, map[]).skip);
  }

  /** What the transport reports: a failure, or a status with the body ReadAll read and its error. */
  datatype Response =
    | TransportFailure(reason: string)
    | Response(statusCode: int, status: string, body: Bytes, readError: Option<string>)

  /**
   * What HTTPRequest's environment supplies: the outcome of http.NewRequest,
   * the order in which the header map is iterated, the tracer's extraction
   * result and carrier, the transport's answer, the clock readings before
   * and after the call, the stack seen by the deferred log line, and the
   * global logger.
   */
  datatype Outside = Outside(
    buildError: Option<string>,
    headerOrder: seq<(string, string)>,
    extracted: bool,
    carrier: seq<(string, string)>,
    response: Response,
    begin: int,
    end: int,
    stack: seq<Log.Frame>,
    global: Log.Logger)

  /** The header the outbound request is sent with. */
  function OutboundHeader(o: Outside, ctxRequest: Option<Log.Request>): Net.Header {
    var supplied := Net.SetAll(map[], o.headerOrder);
    if ctxRequest.None? then supplied
    else
      TracedHeader(CopiedCookies(supplied, ctxRequest.value.cookies),
                   ChooseTracePath(o.extracted, ctxRequest.value.ctx), o.carrier)
  }

  /**
   * HTTPRequest: sends a request with the supplied headers. With an inbound
   * request it copies cookies, propagates the trace and, on every return
   * path, emits the completion record. A construction error is returned as
   * it is; a transport failure and a status outside [200, 400) give no body
   * and an error naming the method (and URI and status); otherwise the body
   * read and ReadAll's error are returned.
   */
  method HTTPRequest(httpMethod: string, uri: string, body: Bytes, ctxRequest: Option<Log.Request>,
                     headers: map<string, string>, o: Outside)
    returns (respBody: Option<Bytes>, err: Option<string>, sent: Outbound?, completion: Option<Result<Log.Record>>)
    requires IsListing(o.headerOrder, headers)
    ensures ctxRequest.None? ==> completion.None?
    ensures ctxRequest.Some? ==>
      completion == Some(LogRequest(o.global, ctxRequest.value, httpMethod, uri, o.begin, o.end, o.stack))
    ensures o.buildError.Some? ==> sent == null && respBody.None? && err == o.buildError
    ensures o.buildError.None? ==>
      && sent != null && fresh(sent)
      && sent.httpMethod == (if httpMethod == "" then "GET" else httpMethod) && sent.uri == uri && sent.body == body
      && sent.header == OutboundHeader(o, ctxRequest)
    ensures o.buildError.None? && o.response.TransportFailure? ==>
      respBody.None? && err == Some("HTTP " + httpMethod + " request failed - " + o.response.reason)
    ensures o.buildError.None? && o.response.Response? && !Accepted(o.response.statusCode) ==>
      respBody.None? && err == Some(httpMethod + " " + uri + ": " + o.response.status)
    ensures o.buildError.None? && o.response.Response? && Accepted(o.response.statusCode) ==>
      respBody == Some(o.response.body) && err == o.response.readError
  {
    // The deferred logRequest runs on every return path below; it reads only
    // the inputs (the clock reading at return is o.end), so it is evaluated here.
    completion := None;
    if ctxRequest.Some? {
      completion := Some(LogRequest(o.global, ctxRequest.value, httpMethod, uri, o.begin, o.end, o.stack));
    }
    sent := null;
    respBody := None;
    if o.buildError.Some? {
      err := o.buildError;
      return;
    }
    var req := new Outbound(httpMethod, uri, body);
    ApplyHeaders(req, o.headerOrder);
    if ctxRequest.Some? {
      CopyCookies(req, ctxRequest.value.cookies);
      TraceRequest(ctxRequest.value, req, o.extracted, o.carrier);
    }
    sent := req;
    match o.response
    case TransportFailure(reason) =>
      err := Some("HTTP " + httpMethod + " request failed - " + reason);
    case Response(statusCode, status, b, readError) =>
      if statusCode >= 400 || statusCode < 200 {
        err := Some(httpMethod + " " + uri + ": " + status);
      } else {
        respBody := Some(b);
        err := readError;
      }
  }
}
