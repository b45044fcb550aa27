/**
 * The older propagation of the single `x-telepresence-intercept-as` header (the files of
 * `Messages/MassTransit/Filters/` and `DelegatingHandlers/`). The publish and send filters
 * pick a value from the inbound HTTP request and from the message itself, the message
 * winning. They differ in how blank values are treated. The consume filter forwards only
 * that header to the older `ConsumeHere`. The delegating handler copies one configured header
 * from the inbound request onto outgoing requests, in Development only.
 *
 * `http` is the inbound request's headers, `None` without an HTTP context.
 */
module LegacyMessaging {
  import opened Wrappers
  import opened Text
  import opened Constants
  import opened ProcessEnvironment
  import opened RestfulApi
  import opened HeaderPropagation
  import LegacyApiService

  /**
   * `IHeaderDictionary.TryGetValue`: ASP.NET keys request headers case-insensitively, so the
   * first entry whose name equals `name` up to ASCII case is found.
   */
  function HeaderValue(entries: seq<Pair>, name: string): (r: Option<string>)
    ensures r.None? <==> forall i :: 0 <= i < |entries| ==> !EqualsIgnoreCase(entries[i].0, name)
    ensures r.Some? ==> exists i :: 0 <= i < |entries| && EqualsIgnoreCase(entries[i].0, name) && entries[i].1 == r.value
    decreases |entries|
  {
    if |entries| == 0 then None
    else if EqualsIgnoreCase(entries[0].0, name) then Some(entries[0].1)
    else
      var rest := HeaderValue(entries[1..], name);
      assert forall i :: 1 <= i < |entries| ==> entries[i] == entries[1..][i - 1];
      if rest.Some? then
        ghost var j :| 0 <= j < |entries[1..]| && EqualsIgnoreCase(entries[1..][j].0, name) && entries[1..][j].1 == rest.value;
        assert entries[j + 1] == entries[1..][j];
        rest
      else rest
  }

  /** A header sent as `X-Telepresence-Intercept-As` is found under the lower-case name. */
  lemma HeaderNameCaseIgnored()
    ensures HeaderValue([("X-Telepresence-Intercept-As", "alice")], InterceptAsHeader) == Some("alice")
  {
    assert ToLower("X-Telepresence-Intercept-As") == InterceptAsHeader;
    assert ToLower(InterceptAsHeader) == InterceptAsHeader;
  }

  /** The inbound HTTP header, when there is an HTTP context that carries it. */
  function HttpValue(http: Option<seq<Pair>>, name: string): Option<string> {
    if http.None? then None else HeaderValue(http.value, name)
  }

  /**
   * The value the publish filter sets: a non-blank message header, else a non-blank HTTP
   * header, else nothing.
   */
  function PublishedInterceptAs(http: Option<seq<Pair>>, message: map<string, string>): (r: Option<string>)
    ensures r.Some? ==> !IsBlank(r.value)
    ensures !IsNullOrBlank(Lookup(message, InterceptAsHeader)) ==> r == Lookup(message, InterceptAsHeader)
    ensures IsNullOrBlank(Lookup(message, InterceptAsHeader)) ==>
      r == (if IsNullOrBlank(HttpValue(http, InterceptAsHeader)) then None else HttpValue(http, InterceptAsHeader))
  {
    var fromMessage := Lookup(message, InterceptAsHeader);
    var fromHttp := HttpValue(http, InterceptAsHeader);
    if !IsNullOrBlank(fromMessage) then fromMessage
    else if !IsNullOrBlank(fromHttp) then fromHttp
    else None
  }

  /**
   * The value the send filter sets: the message header whenever present (blank or not), else
   * the HTTP header whenever present; set only when the choice is not blank.
   */
  function SentInterceptAs(http: Option<seq<Pair>>, message: map<string, string>): (r: Option<string>)
    ensures r.Some? ==> !IsBlank(r.value)
    ensures Lookup(message, InterceptAsHeader).Some? ==>
      r == (if IsBlank(message[InterceptAsHeader]) then None else Some(message[InterceptAsHeader]))
    ensures Lookup(message, InterceptAsHeader).None? ==>
      r == (if IsNullOrBlank(HttpValue(http, InterceptAsHeader)) then None else HttpValue(http, InterceptAsHeader))
  {
    var chosen := if InterceptAsHeader in message then message[InterceptAsHeader]
                  else if HttpValue(http, InterceptAsHeader).Some? then HttpValue(http, InterceptAsHeader).value
                  else "";
    if IsBlank(chosen) then None else Some(chosen)
  }

  /**
   * The two filters agree except where a blank header is present: a blank message header
   * hides a non-blank HTTP value from the send filter, but not from the publish filter.
   */
  lemma BlankMessageHeaderDiffers(http: Option<seq<Pair>>, message: map<string, string>)
    requires Lookup(message, InterceptAsHeader).Some? && IsBlank(message[InterceptAsHeader])
    requires !IsNullOrBlank(HttpValue(http, InterceptAsHeader))
    ensures PublishedInterceptAs(http, message) == HttpValue(http, InterceptAsHeader)
    ensures SentInterceptAs(http, message).None?
  {
  }

  /** Without blank headers on either side the two filters choose the same value. */
  lemma AgreeWithoutBlanks(http: Option<seq<Pair>>, message: map<string, string>)
    requires Lookup(message, InterceptAsHeader).Some? ==> !IsBlank(message[InterceptAsHeader])
    requires HttpValue(http, InterceptAsHeader).Some? ==> !IsBlank(HttpValue(http, InterceptAsHeader).value)
    ensures PublishedInterceptAs(http, message) == SentInterceptAs(http, message)
  {
  }

  /** `TelepresencePublishFilter.Send`: choose step by step, set when non-blank, pass on once. */
  method PublishFilterSend(http: Option<seq<Pair>>, headers: MessageHeaders, next: Pipe<map<string, string>>)
    modifies headers, next
    ensures PublishedInterceptAs(http, old(headers.values)).Some? ==>
      headers.values == old(headers.values)[InterceptAsHeader := PublishedInterceptAs(http, old(headers.values)).value]
    ensures PublishedInterceptAs(http, old(headers.values)).None? ==> headers.values == old(headers.values)
    ensures next.delivered == old(next.delivered) + [headers.values]
  {
    var interceptAs := "";
    if http.Some? {
      var fromHttp := HeaderValue(http.value, InterceptAsHeader);
      if fromHttp.Some? && !IsBlank(fromHttp.value) {
        interceptAs := fromHttp.value;
      }
    }
    if InterceptAsHeader in headers.values && !IsBlank(headers.values[InterceptAsHeader]) {
      interceptAs := headers.values[InterceptAsHeader];
    }
    if !IsBlank(interceptAs) {
      headers.Set(InterceptAsHeader, interceptAs);
    }
    next.Send(headers.values);
  }

  /** `TelepresenceSendFilter.Send`: the same steps without the blank checks on the inputs. */
  method SendFilterSend(http: Option<seq<Pair>>, headers: MessageHeaders, next: Pipe<map<string, string>>)
    modifies headers, next
    ensures SentInterceptAs(http, old(headers.values)).Some? ==>
      headers.values == old(headers.values)[InterceptAsHeader := SentInterceptAs(http, old(headers.values)).value]
    ensures SentInterceptAs(http, old(headers.values)).None? ==> headers.values == old(headers.values)
    ensures next.delivered == old(next.delivered) + [headers.values]
  {
    var interceptAs := "";
    if http.Some? {
      var fromHttp := HeaderValue(http.value, InterceptAsHeader);
      if fromHttp.Some? {
        interceptAs := fromHttp.value;
      }
    }
    if InterceptAsHeader in headers.values {
      interceptAs := headers.values[InterceptAsHeader];
    }
    if !IsBlank(interceptAs) {
      headers.Set(InterceptAsHeader, interceptAs);
    }
    next.Send(headers.values);
  }

  /** The dictionary the older consume filter hands to `ConsumeHere`: the intercept-as header alone, if the message has it. */
  function ForwardedHeaders(message: seq<Pair>): (r: seq<Pair>)
    ensures |r| <= 1
    ensures r == [] <==> ValueOf(message, InterceptAsHeader).None?
    ensures r != [] ==> r[0] == (InterceptAsHeader, ValueOf(message, InterceptAsHeader).value)
  {
    match ValueOf(message, InterceptAsHeader)
    case None => []
    case Some(v) => [(InterceptAsHeader, v)]
  }

  /** The older `TelepresenceConsumeFilter.Send`: ask `ConsumeHere` always, pass the message on iff it says yes. */
  method ConsumeFilterSend(message: seq<Pair>, vars: map<string, string>, send: Request -> Answer,
                           next: Pipe<seq<Pair>>) returns (o: Outcome<Fault>)
    modifies next
    ensures ConsumeHereResult(vars, ForwardedHeaders(message), None, send) == Success(true) ==>
      o == Pass && next.delivered == old(next.delivered) + [message]
    ensures ConsumeHereResult(vars, ForwardedHeaders(message), None, send) == Success(false) ==>
      o == Pass && next.delivered == old(next.delivered)
    ensures ConsumeHereResult(vars, ForwardedHeaders(message), None, send).Failure? ==>
      o == Fail(ConsumeHereResult(vars, ForwardedHeaders(message), None, send).error)
      && next.delivered == old(next.delivered)
  {
    var interceptHeaders: seq<Pair> := [];
    var interceptAs := ValueOf(message, InterceptAsHeader);
    if interceptAs.Some? {
      interceptHeaders := interceptHeaders + [(InterceptAsHeader, interceptAs.value)];
    }
    assert interceptHeaders == ForwardedHeaders(message);
    var consume := LegacyApiService.ConsumeHere(vars, Some(interceptHeaders), None, send);
    if consume.Failure? {
      return Fail(consume.error);
    }
    if consume.value {
      next.Send(message);
    }
    o := Pass;
  }

  /** The older `TelepresenceDelegatingHandler`, with the header name fixed at construction. */
  class DelegatingHandler {
    const interceptHeaderName: string

    /** The configured name, or `x-telepresence-intercept-as` when the option is null. */
    constructor (configured: Option<string>)
      ensures interceptHeaderName == configured.GetOr(InterceptAsHeader)
    {
      interceptHeaderName := configured.GetOr(InterceptAsHeader);
    }

    /**
     * `SendAsync`: outside Development, or without an HTTP context, the request is forwarded
     * as it is; otherwise the configured header is copied from the inbound request when
     * present. The request is always forwarded exactly once.
     */
    method SendAsync(isDevelopment: bool, http: Option<seq<Pair>>, request: OutboundRequest, inner: Pipe<seq<Pair>>)
      modifies request, inner
      ensures isDevelopment && HttpValue(http, interceptHeaderName).Some? ==>
        request.headers == old(request.headers) + [(interceptHeaderName, HttpValue(http, interceptHeaderName).value)]
      ensures !isDevelopment || HttpValue(http, interceptHeaderName).None? ==> request.headers == old(request.headers)
      ensures inner.delivered == old(inner.delivered) + [request.headers]
    {
      if !isDevelopment || http.None? {
        inner.Send(request.headers);
        return;
      }
      var routeAs := HeaderValue(http.value, interceptHeaderName);
      if routeAs.Some? {
        request.TryAddWithoutValidation(interceptHeaderName, routeAs.value);
      }
      inner.Send(request.headers);
    }
  }
}
