/**
 * The library's constants: the propagated header names, the Telepresence environment
 * variables, the exception messages, and the convention-based default name derived
 * from the entry assembly.
 */
module Constants {
  import opened Wrappers
  import opened Text

  const InterceptAsHeader := "x-telepresence-intercept-as"
  const InterceptIdHeader := "x-telepresence-caller-intercept-id"

  const InterceptAsVariable := "TELEPRESENCE_INTERCEPT_AS"
  const InterceptIdVariable := "TELEPRESENCE_INTERCEPT_ID"
  const ApiPortVariable := "TELEPRESENCE_API_PORT"

  /** The messages of `Constants.Exceptions`. */
  datatype Message =
    | AlphaNumericWithHyphens
    | AlphaNumericWithUnderscores
    | AlphaNumericWithHyphensUnderscores
    | CantDetermineName
    | CantExceed64Characters
    | InvalidNumberOfWorkloadsDefined
    | InvalidNumberOfInterceptsDefined
    | InvalidNumberOfHandlersDefined
    | NotValidPort
    | NotAnIpAddress
    | GlobalMutuallyExclusive
    | MutuallyExclusiveHandlers
    | UnableToStartIntercept
    | NoWorkloadFound
    | NoWorkloadInterceptFound
    | NoHandlerFound

  /** The text of each message. */
  function MessageText(m: Message): string {
    match m
    case AlphaNumericWithHyphens => "Value must consist of only letters, numbers and hyphens."
    case AlphaNumericWithUnderscores => "Value must consist of only letters, numbers and underscores."
    case AlphaNumericWithHyphensUnderscores => "Value must consist of only letters, numbers, hyphens and underscores."
    case CantDetermineName => "Cannot determine name from input or convention."
    case CantExceed64Characters => "Cannot exceed 64 characters."
    case InvalidNumberOfWorkloadsDefined => "Only 1 - 32 workloads can be defined at once."
    case InvalidNumberOfInterceptsDefined => "Only 1 - 16 intercepts can be defined at once."
    case InvalidNumberOfHandlersDefined => "Only 1 - 64 handlers can be defined at once."
    case NotValidPort => "Port numbers can only be between 1 - 65535."
    case NotAnIpAddress => "Not a valid IP address."
    case GlobalMutuallyExclusive => "Cannot set Global while Paths or Headers are also set."
    case MutuallyExclusiveHandlers => "Handlers are mutually exclusive, you must set exactly one of [docker, script, external]."
    case UnableToStartIntercept => "Unable to start the intercept."
    case NoWorkloadFound => "Unable to find a workload to intercept."
    case NoWorkloadInterceptFound => "Unable to find a workload intercept to start."
    case NoHandlerFound => "Unable to find a handler to start."
  }

  /** The exceptions the core raises or lets through. */
  datatype Fault =
    | ArgumentNull(parameter: string)
    | ArgumentOutOfRange(parameter: string)
    | InvalidOperation(message: Message)
    /** A static initialiser that threw; `message` is that of the exception it wraps. */
    | TypeInitialization(message: Message)
    | NotImplemented
    | NullReference
    /** `new Uri(...)` rejected the address (for example a port outside 0..65535). */
    | UriFormat
    /** A file could not be opened for a reason other than an `IOException`. */
    | UnauthorizedAccess
    /** A cancelled wait or read. */
    | OperationCanceled
    /** The `telepresence` process could not be started or waited for. */
    | ProcessFailure
    /** `HttpClient.SendAsync` failed to reach the server. */
    | Transport
    /** A JSON document could not be deserialised. */
    | JsonFormat
    /** `TaskCompletionSource.SetResult` on a wait that has already completed. */
    | TaskAlreadyCompleted

  /** Holds no '.', no '_' and no upper-case ASCII letter. */
  predicate IsNormalized(s: string) {
    forall i :: 0 <= i < |s| ==> s[i] != '.' && s[i] != '_' && !IsAsciiUpper(s[i])
  }

  /**
   * The entry assembly's name with '.' and '_' replaced by '-' and lower-cased
   * (`Replace('.', '-').Replace('_', '-').ToLowerInvariant()`).
   */
  function Normalize(name: string): (r: string)
    ensures |r| == |name|
    ensures IsNormalized(r)
  {
    ToLower(ReplaceChar(ReplaceChar(name, '.', '-'), '_', '-'))
  }

  /** Normalising a normalised name changes nothing. */
  lemma NormalizeIdempotent(name: string)
    ensures Normalize(Normalize(name)) == Normalize(name)
  {
    var n := Normalize(name);
    assert forall i :: 0 <= i < |n| ==> Normalize(n)[i] == n[i];
  }

  /** Normalisation changes exactly the '.', '_' and upper-case letters, position by position. */
  lemma NormalizeAt(name: string, i: nat)
    requires i < |name|
    ensures Normalize(name)[i] == (if name[i] == '.' || name[i] == '_' then '-' else ToLowerChar(name[i]))
  {
  }

  /**
   * An assembly name made of ASCII letters, digits, '.', '_' and '-' that starts with a
   * letter normalises to a lower-case name: it passes the workload and connection name patterns.
   */
  lemma NormalizeGivesLowerName(name: string)
    requires |name| >= 1 && IsAsciiLetter(name[0])
    requires forall i :: 0 <= i < |name| ==> IsAsciiLetter(name[i]) || IsAsciiDigit(name[i]) || name[i] in ".-_"
    ensures var r := Normalize(name);
      IsAsciiLower(r[0]) && forall i :: 0 <= i < |r| ==> IsAsciiLower(r[i]) || IsAsciiDigit(r[i]) || r[i] == '-'
  {
    var r := Normalize(name);
    forall i | 0 <= i < |r|
      ensures IsAsciiLower(r[i]) || IsAsciiDigit(r[i]) || r[i] == '-'
    {
      NormalizeAt(name, i);
    }
    NormalizeAt(name, 0);
  }

  /**
   * `Constants.Defaults.NormalizedEntryAssembly`: a static read-only field, so a missing
   * entry-assembly name surfaces as a type-initialisation failure on every read.
   */
  function NormalizedEntryAssembly(entryAssemblyName: Option<string>): (r: Result<string, Fault>)
    ensures entryAssemblyName.None? <==> r.Failure?
    ensures r.Failure? ==> r.error == TypeInitialization(CantDetermineName)
    ensures r.Success? ==> |r.value| == |entryAssemblyName.value| && IsNormalized(r.value)
  {
    match entryAssemblyName
    case None => Failure(TypeInitialization(CantDetermineName))
    case Some(n) => Success(Normalize(n))
  }
}
