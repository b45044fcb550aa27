/**
 * The older API client, `Services.TelepresenceApiService`. `Healthz` is the same code as
 * the current client's. `ConsumeHere` takes the caller's headers as an argument and adds them
 * only when there are some; `InterceptInfo` sends a bare GET with no headers at all.
 */
module LegacyApiService {
  import opened Wrappers
  import opened Text
  import opened Constants
  import opened ProcessEnvironment
  import opened EnvironmentHelper
  import opened EnvironmentLoader
  import opened RestfulApi

  /** `ConsumeHere(interceptHeaders, optionalPath)`: headers are copied only from a non-null, non-empty dictionary. */
  method ConsumeHere(vars: map<string, string>, interceptHeaders: Option<seq<Pair>>, optionalPath: Option<string>,
                     send: Request -> Answer) returns (r: Result<bool, Fault>)
    ensures r == ConsumeHereResult(vars, interceptHeaders.GetOr([]), optionalPath, send)
  {
    var port := ApiPort(vars);
    if port.None? {
      return Success(true);
    }
    if !IsUriPort(port.value) {
      return Failure(UriFormat);
    }
    var id := InterceptId(vars);
    var headers: seq<Pair> := if id.Some? then [(InterceptIdHeader, id.value)] else [];
    if interceptHeaders.Some? && |interceptHeaders.value| > 0 {
      var given := interceptHeaders.value;
      var i := 0;
      while i < |given|
        invariant 0 <= i <= |given|
        invariant headers == (if id.Some? then [(InterceptIdHeader, id.value)] else []) + given[..i]
      {
        headers := headers + [given[i]];
        assert given[..i + 1] == given[..i] + [given[i]];
        i := i + 1;
      }
      assert given[..|given|] == given;
    }
    assert headers == CallerHeaders(id, interceptHeaders.GetOr([]));
    r := Consent(send(Request(Endpoint(port.value, ConsumeHereRoute, optionalPath), headers)));
  }

  /** What the older `InterceptInfo` returns: the same decisions over a request that carries no headers. */
  function InterceptInfoResult(vars: map<string, string>, optionalPath: Option<string>, send: Request -> Answer,
                               parse: string -> Parsed<InterceptInfo>): (r: Result<Option<InterceptInfo>, Fault>)
    ensures ApiPort(vars).None? ==> r == Success(None)
    ensures ApiPort(vars).Some? && IsUriPort(ApiPort(vars).value) ==>
      r == Decoded(send(Request(Endpoint(ApiPort(vars).value, InterceptInfoRoute, optionalPath), [])), parse)
  {
    Call(vars, InterceptInfoRoute, optionalPath, [], send, a => Decoded(a, parse), None)
  }

  /**
   * The older call drops the intercept id that the current one adds, so with no context
   * headers the two differ exactly in whether `TELEPRESENCE_INTERCEPT_ID` is forwarded.
   */
  lemma NoInterceptIdForwarded(vars: map<string, string>, optionalPath: Option<string>, send: Request -> Answer,
                               parse: string -> Parsed<InterceptInfo>)
    requires InterceptId(vars).None?
    ensures InterceptInfoResult(vars, optionalPath, send, parse)
         == RestfulApi.InterceptInfoResult(vars, [], optionalPath, send, parse)
  {
  }
}
