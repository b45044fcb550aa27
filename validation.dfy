/**
 * The shape every validated `init` accessor shares: a blank value is a missing argument,
 * then an optional 64-character limit, then the pattern. Ports share one range check.
 */
module Validation {
  import opened Wrappers
  import opened Text
  import opened Constants

  /** The result of `if blank throw ArgumentNull; if limited && Length > 64 throw; if !matches throw InvalidOperation(message)`. */
  function CheckName(parameter: string, value: Option<string>, limited: bool, matches: bool, message: Message): (r: Outcome<Fault>)
    ensures r == Pass <==> !IsNullOrBlank(value) && (!limited || |value.value| <= 64) && matches
    ensures IsNullOrBlank(value) ==> r == Fail(ArgumentNull(parameter))
    ensures !IsNullOrBlank(value) && limited && |value.value| > 64 ==> r == Fail(InvalidOperation(CantExceed64Characters))
    ensures r.Fail? && !IsNullOrBlank(value) && (!limited || |value.value| <= 64) ==> r == Fail(InvalidOperation(message))
  {
    if IsNullOrBlank(value) then Fail(ArgumentNull(parameter))
    else if limited && |value.value| > 64 then Fail(InvalidOperation(CantExceed64Characters))
    else if !matches then Fail(InvalidOperation(message))
    else Pass
  }

  /** A TCP port as the setters accept it. */
  predicate IsPort(n: int) { 1 <= n <= 65535 }

  /** `value is < 1 or > 65535`: a missing port passes. */
  function CheckPort(value: Option<int>): (r: Outcome<Fault>)
    ensures r == Pass <==> value.None? || IsPort(value.value)
    ensures r.Fail? ==> r.error == InvalidOperation(NotValidPort)
  {
    if value.Some? && !IsPort(value.value) then Fail(InvalidOperation(NotValidPort)) else Pass
  }
}
