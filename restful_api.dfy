/**
 * The client of the Telepresence RESTful API served by the traffic agent on
 * `localhost:$TELEPRESENCE_API_PORT`: `/healthz`, `/consume-here` and `/intercept-info`.
 * Sending is a function parameter from the request to what came back; a failure to reach
 * the server is raised, because every `SendAsync` sits outside the `try` that only guards
 * `EnsureSuccessStatusCode`.
 */
module RestfulApi {
  import opened Wrappers
  import opened Text
  import opened Numbers
  import opened Constants
  import opened ProcessEnvironment
  import opened EnvironmentHelper
  import opened EnvironmentLoader

  /** A GET request: its address and its headers in the order they were added. */
  datatype Request = Request(url: string, headers: seq<Pair>)

  /** A response (`IsSuccessStatusCode` and the body text), or a failure to reach the server. */
  datatype Answer = Response(success: bool, body: string) | Unreachable

  datatype InterceptInfo = InterceptInfo(intercepted: bool, clientSide: bool, metadata: map<string, string>)

  const Localhost := "http://localhost:"
  const HealthzRoute := "healthz"
  const ConsumeHereRoute := "consume-here"
  const InterceptInfoRoute := "intercept-info"

  /** A port `System.Uri` accepts in an authority. */
  predicate IsUriPort(port: int) { 0 <= port <= 65535 }

  /** `http://localhost:{port}/{route}`, with `?path=` and the raw path appended when it is not blank. */
  function Endpoint(port: int, route: string, optionalPath: Option<string>): (r: string)
    ensures StartsWith(r, Localhost + DecimalString(port) + "/" + route)
    ensures IsNullOrBlank(optionalPath) <==> |r| == |Localhost + DecimalString(port) + "/" + route|
    ensures !IsNullOrBlank(optionalPath) ==>
      r[|Localhost + DecimalString(port) + "/" + route|..] == "?path=" + optionalPath.value
  {
    var base := Localhost + DecimalString(port) + "/" + route;
    if IsNullOrBlank(optionalPath) then base
    else
      assert (base + "?path=" + optionalPath.value)[|base|..] == "?path=" + optionalPath.value;
      base + "?path=" + optionalPath.value
  }

  /** The optional `x-telepresence-caller-intercept-id` header, then every context header in order. */
  function CallerHeaders(interceptId: Option<string>, context: seq<Pair>): (r: seq<Pair>)
    ensures |r| == |context| + (if interceptId.Some? then 1 else 0)
    ensures interceptId.Some? ==> r[0] == (InterceptIdHeader, interceptId.value) && r[1..] == context
    ensures interceptId.None? ==> r == context
  {
    (if interceptId.Some? then [(InterceptIdHeader, interceptId.value)] else []) + context
  }

  /**
   * The shape shared by the three calls: without a port the call answers `missing` and
   * sends nothing; a port `Uri` refuses raises; otherwise `decide` reads what came back.
   */
  function Call<T>(vars: map<string, string>, route: string, optionalPath: Option<string>, headers: seq<Pair>,
                   send: Request -> Answer, decide: Answer -> Result<T, Fault>, missing: T): (r: Result<T, Fault>)
    ensures ApiPort(vars).None? ==> r == Success(missing)
    ensures ApiPort(vars).Some? && !IsUriPort(ApiPort(vars).value) ==> r == Failure(UriFormat)
    ensures ApiPort(vars).Some? && IsUriPort(ApiPort(vars).value) ==>
      r == decide(send(Request(Endpoint(ApiPort(vars).value, route, optionalPath), headers)))
  {
    match ApiPort(vars)
    case None => Success(missing)
    case Some(port) =>
      if !IsUriPort(port) then Failure(UriFormat)
      else decide(send(Request(Endpoint(port, route, optionalPath), headers)))
  }

  /** `EnsureSuccessStatusCode` caught: healthy iff the response is a success. */
  function Status(a: Answer): Result<bool, Fault> {
    if a.Unreachable? then Failure(Transport) else Success(a.success)
  }

  /** A failed status consumes (fail open); a success consumes iff the body mentions `true`, in any case. */
  function Consent(a: Answer): Result<bool, Fault> {
    if a.Unreachable? then Failure(Transport)
    else if !a.success then Success(true)
    else Success(ContainsIgnoreCase(a.body, "true"))
  }

  /** A failed status is no information; a success is deserialised, and a body that is not JSON raises. */
  function Decoded(a: Answer, parse: string -> Parsed<InterceptInfo>): Result<Option<InterceptInfo>, Fault> {
    if a.Unreachable? then Failure(Transport)
    else if !a.success then Success(None)
    else match parse(a.body)
      case Value(v) => Success(Some(v))
      case Null => Success(None)
      case Malformed => Failure(JsonFormat)
  }

  /** The `/healthz` request: no headers. */
  function HealthzRequest(port: int): Request {
    Request(Endpoint(port, HealthzRoute, None), [])
  }

  /** `Healthz`: true exactly when a port is configured and the agent answered with a success status. */
  function Healthz(vars: map<string, string>, send: Request -> Answer): (r: Result<bool, Fault>)
    ensures r == Success(true) <==>
      ApiPort(vars).Some? && IsUriPort(ApiPort(vars).value) && send(HealthzRequest(ApiPort(vars).value)).Response?
      && send(HealthzRequest(ApiPort(vars).value)).success
    ensures ApiPort(vars).None? ==> r == Success(false)
    ensures r.Failure? <==>
      ApiPort(vars).Some? && (!IsUriPort(ApiPort(vars).value) || send(HealthzRequest(ApiPort(vars).value)).Unreachable?)
  {
    Call(vars, HealthzRoute, None, [], send, Status, false)
  }

  /** The `/consume-here` request this service sends. */
  function ConsumeHereRequest(port: int, vars: map<string, string>, context: seq<Pair>, optionalPath: Option<string>): Request {
    Request(Endpoint(port, ConsumeHereRoute, optionalPath), CallerHeaders(InterceptId(vars), context))
  }

  /** What `ConsumeHere` returns, given the context headers at the time of the call. */
  function ConsumeHereResult(vars: map<string, string>, context: seq<Pair>, optionalPath: Option<string>,
                             send: Request -> Answer): Result<bool, Fault>
  {
    Call(vars, ConsumeHereRoute, optionalPath, CallerHeaders(InterceptId(vars), context), send, Consent, true)
  }

  /**
   * The only way to be told not to consume: a port is configured, the agent answered with a
   * success status and the body does not mention `true`. Everything else that answers at all
   * says consume.
   */
  lemma ConsumeHereDeclinesOnlyOnAnswer(vars: map<string, string>, context: seq<Pair>, optionalPath: Option<string>,
                                        send: Request -> Answer)
    ensures ConsumeHereResult(vars, context, optionalPath, send) == Success(false) <==>
      && ApiPort(vars).Some? && IsUriPort(ApiPort(vars).value)
      && var a := send(ConsumeHereRequest(ApiPort(vars).value, vars, context, optionalPath));
         a.Response? && a.success && !ContainsIgnoreCase(a.body, "true")
    ensures ApiPort(vars).None? ==> ConsumeHereResult(vars, context, optionalPath, send) == Success(true)
    ensures ConsumeHereResult(vars, context, optionalPath, send).Failure? <==>
      ApiPort(vars).Some? && (!IsUriPort(ApiPort(vars).value)
        || send(ConsumeHereRequest(ApiPort(vars).value, vars, context, optionalPath)).Unreachable?)
  {
  }

  /** The body check is case-insensitive and tolerates the trailing newline the agent sends. */
  lemma ConsentExamples()
    ensures Consent(Response(true, "True\n")) == Success(true)
    ensures Consent(Response(true, "false\n")) == Success(false)
    ensures Consent(Response(false, "false")) == Success(true)
  {
    assert ToLower("true") == "true";
    assert ToLower("True\n") == "true\n";
    assert StartsWith(ToLower("True\n"), ToLower("true"));
    var f := ToLower("false\n");
    assert f == "false\n";
    assert !Contains(f[5..], "true");
    assert !Contains(f[4..], "true") && !Contains(f[3..], "true");
    assert f[2..][..4] != "true" by { assert f[2..][..4][0] == 'l'; }
    assert f[1..][..4] != "true" by { assert f[1..][..4][0] == 'a'; }
    assert !Contains(f[2..], "true") && !Contains(f[1..], "true");
    assert !Contains(f, "true");
  }

  /** Build the request of a call: the optional intercept-id header, then one `Headers.Add` per context entry. */
  method AddCallerHeaders(url: string, interceptId: Option<string>, context: seq<Pair>) returns (request: Request)
    ensures request == Request(url, CallerHeaders(interceptId, context))
  {
    var headers: seq<Pair> := [];
    if interceptId.Some? {
      headers := headers + [(InterceptIdHeader, interceptId.value)];
    }
    var i := 0;
    while i < |context|
      invariant 0 <= i <= |context|
      invariant headers == (if interceptId.Some? then [(InterceptIdHeader, interceptId.value)] else []) + context[..i]
    {
      headers := headers + [context[i]];
      assert context[..i + 1] == context[..i] + [context[i]];
      i := i + 1;
    }
    assert context[..|context|] == context;
    request := Request(url, headers);
  }

  /** `ConsumeHere(optionalPath)` with the context's headers. */
  method ConsumeHere(vars: map<string, string>, context: seq<Pair>, optionalPath: Option<string>,
                     send: Request -> Answer) returns (r: Result<bool, Fault>)
    ensures r == ConsumeHereResult(vars, context, optionalPath, send)
  {
    var port := ApiPort(vars);
    if port.None? {
      return Success(true);
    }
    if !IsUriPort(port.value) {
      return Failure(UriFormat);
    }
    var request := AddCallerHeaders(Endpoint(port.value, ConsumeHereRoute, optionalPath), InterceptId(vars), context);
    r := Consent(send(request));
  }

  /** What `InterceptInfo` returns, given the context headers at the time of the call. */
  function InterceptInfoResult(vars: map<string, string>, context: seq<Pair>, optionalPath: Option<string>,
                               send: Request -> Answer, parse: string -> Parsed<InterceptInfo>)
    : Result<Option<InterceptInfo>, Fault>
  {
    Call(vars, InterceptInfoRoute, optionalPath, CallerHeaders(InterceptId(vars), context), send,
         a => Decoded(a, parse), None)
  }

  /** Information is returned only from a success response whose body deserialises to an object. */
  lemma InterceptInfoOnlyFromSuccess(vars: map<string, string>, context: seq<Pair>, optionalPath: Option<string>,
                                     send: Request -> Answer, parse: string -> Parsed<InterceptInfo>, info: InterceptInfo)
    ensures InterceptInfoResult(vars, context, optionalPath, send, parse) == Success(Some(info)) <==>
      && ApiPort(vars).Some? && IsUriPort(ApiPort(vars).value)
      && var a := send(Request(Endpoint(ApiPort(vars).value, InterceptInfoRoute, optionalPath),
                               CallerHeaders(InterceptId(vars), context)));
         a.Response? && a.success && parse(a.body) == Value(info)
    ensures ApiPort(vars).None? ==> InterceptInfoResult(vars, context, optionalPath, send, parse) == Success(None)
  {
  }

  /** `InterceptInfo(optionalPath)` with the context's headers. */
  method GetInterceptInfo(vars: map<string, string>, context: seq<Pair>, optionalPath: Option<string>,
                          send: Request -> Answer, parse: string -> Parsed<InterceptInfo>)
    returns (r: Result<Option<InterceptInfo>, Fault>)
    ensures r == InterceptInfoResult(vars, context, optionalPath, send, parse)
  {
    var port := ApiPort(vars);
    if port.None? {
      return Success(None);
    }
    if !IsUriPort(port.value) {
      return Failure(UriFormat);
    }
    var request := AddCallerHeaders(Endpoint(port.value, InterceptInfoRoute, optionalPath), InterceptId(vars), context);
    r := Decoded(send(request), parse);
  }
}
