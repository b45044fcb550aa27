/**
 * The intercept-specification output loader. The `telepresence intercept run` output is a
 * JSON document with a list of intercepts and a top-level environment; the loader applies
 * the first intercept's environment and then the top-level one, so the top-level values win.
 * The document arrives either as a stdout line or as an output file.
 */
module OutputLoader {
  import opened Wrappers
  import opened Constants
  import opened Host
  import opened ProcessEnvironment
  import opened EnvironmentLoader

  /** The parts of an `InterceptResult` the loader consults. */
  datatype InterceptResult = InterceptResult(name: Option<string>, environment: Option<seq<Pair>>)

  /** The parts of an `InterceptOutput` the loader consults. */
  datatype InterceptOutput = InterceptOutput(name: Option<string>, intercepts: Option<seq<InterceptResult>>,
                                             environment: Option<seq<Pair>>)

  /** A dictionary matching `{ Count: > 0 }`, or nothing. */
  function Populated(e: Option<seq<Pair>>): (r: seq<Pair>)
    ensures |r| > 0 <==> e.Some? && |e.value| > 0
    ensures |r| > 0 ==> r == e.value
  {
    if e.Some? && |e.value| > 0 then e.value else []
  }

  /** `Intercepts?.FirstOrDefault()?.Environment` */
  function FirstInterceptEnvironment(doc: InterceptOutput): Option<seq<Pair>> {
    if doc.intercepts.Some? && |doc.intercepts.value| > 0 then doc.intercepts.value[0].environment else None
  }

  /** Every assignment a parsed document makes, in order. */
  function OutputEntries(doc: InterceptOutput): seq<Pair> {
    Populated(FirstInterceptEnvironment(doc)) + Populated(doc.environment)
  }

  /** A name the top-level environment assigns ends with the top-level value. */
  lemma TopLevelWins(vars: map<string, string>, doc: InterceptOutput, key: string)
    requires doc.environment.Some?
    requires LastValue(doc.environment.value, key).Some?
    ensures Lookup(Applied(vars, OutputEntries(doc)), key) == LastValue(doc.environment.value, key)
  {
    var top := doc.environment.value;
    AppliedConcat(vars, Populated(FirstInterceptEnvironment(doc)), Populated(doc.environment));
    AppliedLookup(Applied(vars, Populated(FirstInterceptEnvironment(doc))), top, key);
  }

  /** A name only the first intercept assigns takes that intercept's value. */
  lemma FirstInterceptFallback(vars: map<string, string>, doc: InterceptOutput, key: string)
    requires FirstInterceptEnvironment(doc).Some?
    requires LastValue(FirstInterceptEnvironment(doc).value, key).Some?
    requires forall i :: 0 <= i < |Populated(doc.environment)| ==> Populated(doc.environment)[i].0 != key
    ensures Lookup(Applied(vars, OutputEntries(doc)), key) == LastValue(FirstInterceptEnvironment(doc).value, key)
  {
    var first := FirstInterceptEnvironment(doc).value;
    AppliedConcat(vars, Populated(FirstInterceptEnvironment(doc)), Populated(doc.environment));
    Untouched(Applied(vars, first), Populated(doc.environment), key);
    AppliedLookup(vars, first, key);
  }

  /** Intercepts after the first are never consulted. */
  lemma OnlyFirstIntercept(doc: InterceptOutput, first: InterceptResult, rest: seq<InterceptResult>)
    ensures OutputEntries(doc.(intercepts := Some([first] + rest))) == OutputEntries(doc.(intercepts := Some([first])))
  {
  }

  /** What loading a JSON document does: its assignments, nothing for `null`, or the parser's exception. */
  function TextEntries(text: string, parse: string -> Parsed<InterceptOutput>): Result<seq<Pair>, Fault> {
    match parse(text)
    case Malformed => Failure(JsonFormat)
    case Null => Success([])
    case Value(doc) => Success(OutputEntries(doc))
  }

  /** What loading `path` does: the extension dispatch of the flat loader with this document shape. */
  function FileEntries(files: map<string, string>, path: string, attempts: seq<OpenAttempt>,
                       parse: string -> Parsed<InterceptOutput>): Result<seq<Pair>, Fault>
  {
    if path !in files then Success([])
    else match ProcessorFor(Extension(path))
      case None => Success([])
      case Some(YamlProcessor) => Failure(NotImplemented)
      case Some(DotEnvProcessor) => Failure(NotImplemented)
      case Some(JsonProcessor) =>
        match ReadWait(attempts)
        case Failure(e) => Failure(e)
        case Success(false) => Failure(OperationCanceled)
        case Success(true) => TextEntries(files[path], parse)
  }

  /** A readable `.json` output file is loaded exactly as the same text arriving on stdout. */
  lemma FileLikeString(files: map<string, string>, path: string, attempts: seq<OpenAttempt>,
                       parse: string -> Parsed<InterceptOutput>)
    requires path in files && ProcessorFor(Extension(path)) == Some(JsonProcessor)
    requires ReadWait(attempts) == Success(true)
    ensures FileEntries(files, path, attempts, parse) == TextEntries(files[path], parse)
  {
  }

  /** A missing file or an unregistered extension changes nothing; YAML and .env throw. */
  lemma FileDispatch(files: map<string, string>, path: string, attempts: seq<OpenAttempt>,
                     parse: string -> Parsed<InterceptOutput>)
    ensures path !in files || ProcessorFor(Extension(path)).None? ==> FileEntries(files, path, attempts, parse) == Success([])
    ensures path in files && ProcessorFor(Extension(path)) in {Some(YamlProcessor), Some(DotEnvProcessor)} ==>
      FileEntries(files, path, attempts, parse) == Failure(NotImplemented)
  {
  }

  /** `ProcessJsonOutput` on an already-read document. */
  method ApplyOutput(text: string, env: Environment, parse: string -> Parsed<InterceptOutput>) returns (o: Outcome<Fault>)
    modifies env
    ensures var e := TextEntries(text, parse);
      && (e.Failure? ==> o == Fail(e.error) && env.vars == old(env.vars))
      && (e.Success? ==> o == Pass && env.vars == Applied(old(env.vars), e.value))
  {
    match parse(text) {
      case Malformed =>
        return Fail(JsonFormat);
      case Null =>
        return Pass;
      case Value(doc) =>
        var first := FirstInterceptEnvironment(doc);
        if first.Some? && |first.value| > 0 {
          env.SetAll(first.value);
        }
        if doc.environment.Some? && |doc.environment.value| > 0 {
          env.SetAll(doc.environment.value);
        }
        AppliedConcat(old(env.vars), Populated(first), Populated(doc.environment));
        return Pass;
    }
  }

  /** `LoadEnvironmentFromString`: the stdout payload is applied directly. */
  method LoadEnvironmentFromString(output: string, env: Environment, parse: string -> Parsed<InterceptOutput>)
    returns (o: Outcome<Fault>)
    modifies env
    ensures var e := TextEntries(output, parse);
      && (e.Failure? ==> o == Fail(e.error) && env.vars == old(env.vars))
      && (e.Success? ==> o == Pass && env.vars == Applied(old(env.vars), e.value))
  {
    o := ApplyOutput(output, env, parse);
  }

  /** `LoadEnvironmentFromFile` */
  method LoadEnvironmentFromFile(path: string, fs: FileSystem, env: Environment, attempts: seq<OpenAttempt>,
                                 parse: string -> Parsed<InterceptOutput>) returns (o: Outcome<Fault>)
    modifies env
    ensures var e := FileEntries(fs.files, path, attempts, parse);
      && (e.Failure? ==> o == Fail(e.error) && env.vars == old(env.vars))
      && (e.Success? ==> o == Pass && env.vars == Applied(old(env.vars), e.value))
  {
    if !fs.Exists(path) {
      return Pass;
    }
    match ProcessorFor(Extension(path)) {
      case None =>
        return Pass;
      case Some(YamlProcessor) =>
        return Fail(NotImplemented);
      case Some(DotEnvProcessor) =>
        return Fail(NotImplemented);
      case Some(JsonProcessor) =>
        var ready, _ := WaitForRead(attempts);
        if ready.Failure? {
          return Fail(ready.error);
        }
        if !ready.value {
          return Fail(OperationCanceled);
        }
        o := ApplyOutput(fs.files[path], env, parse);
    }
  }
}
