/**
 * `EnvironmentHelper.TryGetEnvironmentVariable<T>`: read a process variable and convert it
 * with `Convert.ChangeType`. The `bool` result and the `out` value are one `Option`: `None`
 * is `false` with the variable still at `default(T)`, `Some(v)` is `true` with `v`.
 */
module EnvironmentHelper {
  import opened Wrappers
  import opened Text
  import opened Numbers
  import opened Constants
  import opened ProcessEnvironment

  /**
   * A missing or white-space value is `false`; otherwise the conversion decides, and a
   * conversion that throws is caught and also reads as `false`.
   */
  function TryGetEnvironmentVariable<T>(vars: map<string, string>, key: string, convert: string -> Option<T>): (r: Option<T>)
    ensures IsNullOrBlank(Lookup(vars, key)) ==> r.None?
    ensures !IsNullOrBlank(Lookup(vars, key)) ==> r == convert(vars[key])
  {
    if key !in vars || IsBlank(vars[key]) then None else convert(vars[key])
  }

  /** `Convert.ChangeType(s, typeof(string))` is the string itself. */
  function AsString(s: string): Option<string> { Some(s) }

  /** `TELEPRESENCE_API_PORT` read as an `int`: the conversion is `Int32.Parse`. */
  function ApiPort(vars: map<string, string>): (r: Option<int>)
    ensures r.Some? ==> IsInt32(r.value)
  {
    TryGetEnvironmentVariable(vars, ApiPortVariable, ParseInt32)
  }

  /** `TELEPRESENCE_INTERCEPT_ID` read as a `string`: present iff set to non-blank text. */
  function InterceptId(vars: map<string, string>): (r: Option<string>)
    ensures r.Some? <==> !IsNullOrBlank(Lookup(vars, InterceptIdVariable))
    ensures r.Some? ==> r.value == vars[InterceptIdVariable]
  {
    TryGetEnvironmentVariable(vars, InterceptIdVariable, AsString)
  }

  /** A port that `Int32.Parse` rejects reads as no port at all, the same as an unset variable. */
  lemma UnparseablePort(vars: map<string, string>)
    requires ApiPortVariable in vars && ParseInt32(vars[ApiPortVariable]).None?
    ensures ApiPort(vars).None?
  {
  }

  /** A set port round-trips: the variable holding the decimal text of a 32-bit number reads back as that number. */
  lemma PortRoundTrip(vars: map<string, string>, port: int)
    requires IsInt32(port) && Lookup(vars, ApiPortVariable) == Some(DecimalString(port))
    ensures ApiPort(vars) == Some(port)
  {
    ParseDecimalString(port);
    assert !IsWhiteSpace(DecimalString(port)[0]);
  }

  /** Examples: a blank or non-numeric variable is missing, a padded number is read. */
  lemma PortExamples()
    ensures ApiPort(map[ApiPortVariable := "  "]).None?
    ensures ApiPort(map[ApiPortVariable := "80a"]).None?
    ensures ApiPort(map[ApiPortVariable := " 8080 "]) == Some(8080)
  {
    ParseRejects();
    ParseAcceptsPaddedPort();
    assert !IsBlank("80a") by { assert !IsWhiteSpace("80a"[0]); }
    assert !IsBlank(" 8080 ") by { assert !IsWhiteSpace(" 8080 "[1]); }
  }
}
