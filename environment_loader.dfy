/**
 * The command-line intercept's environment loader: it picks a processor by the file's
 * extension (case-insensitive), and the JSON processor waits until the file can be opened
 * for shared reading, reads it as a flat name-to-value object and assigns every variable.
 * The YAML and .env processors are not implemented and throw.
 */
module EnvironmentLoader {
  import opened Wrappers
  import opened Text
  import opened Constants
  import opened Host
  import opened ProcessEnvironment

  /** What `JsonConvert.DeserializeObject<T>` makes of a document. */
  datatype Parsed<T> = Value(value: T) | Null | Malformed

  datatype Processor = JsonProcessor | YamlProcessor | DotEnvProcessor

  /** The processor registered for an extension in the `OrdinalIgnoreCase` dictionary. */
  function ProcessorFor(extension: string): (r: Option<Processor>)
    ensures r == Some(JsonProcessor) <==> EqualsIgnoreCase(extension, ".json")
    ensures r == Some(YamlProcessor) <==> EqualsIgnoreCase(extension, ".yml") || EqualsIgnoreCase(extension, ".yaml")
    ensures r == Some(DotEnvProcessor) <==> EqualsIgnoreCase(extension, ".env")
  {
    assert ToLower(".json") == ".json" && ToLower(".yml") == ".yml";
    assert ToLower(".yaml") == ".yaml" && ToLower(".env") == ".env";
    if EqualsIgnoreCase(extension, ".json") then Some(JsonProcessor)
    else if EqualsIgnoreCase(extension, ".yml") || EqualsIgnoreCase(extension, ".yaml") then Some(YamlProcessor)
    else if EqualsIgnoreCase(extension, ".env") then Some(DotEnvProcessor)
    else None
  }

  lemma ProcessorExamples()
    ensures ProcessorFor(".JSON") == Some(JsonProcessor)
    ensures ProcessorFor(".env") == Some(DotEnvProcessor)
    ensures ProcessorFor(".txt") == None
  {
    assert ToLower(".JSON") == ".json";
    assert ToLower(".txt") == ".txt";
    assert ToLower(".json") == ".json";
  }

  /**
   * The variables loading `path` assigns, or the exception it raises: nothing for a missing
   * file or an unregistered extension; for JSON, the document's pairs once the file opens
   * (nothing for a `null` document); a cancelled wait makes the read throw.
   */
  function FileEntries(files: map<string, string>, path: string, attempts: seq<OpenAttempt>,
                       parse: string -> Parsed<seq<Pair>>): Result<seq<Pair>, Fault>
  {
    if path !in files then Success([])
    else match ProcessorFor(Extension(path))
      case None => Success([])
      case Some(YamlProcessor) => Failure(NotImplemented)
      case Some(DotEnvProcessor) => Failure(NotImplemented)
      case Some(JsonProcessor) =>
        match ReadWait(attempts)
        case Failure(e) => Failure(e)
        case Success(false) => Failure(OperationCanceled)
        case Success(true) =>
          match parse(files[path])
          case Malformed => Failure(JsonFormat)
          case Null => Success([])
          case Value(entries) => Success(entries)
  }

  /** A file without a registered extension, or a missing one, changes nothing. */
  lemma IgnoredFiles(files: map<string, string>, path: string, attempts: seq<OpenAttempt>, parse: string -> Parsed<seq<Pair>>)
    requires path !in files || ProcessorFor(Extension(path)).None?
    ensures FileEntries(files, path, attempts, parse) == Success([])
  {
  }

  /** The YAML and .env processors always throw `NotImplementedException`, before touching the environment. */
  lemma UnimplementedFormats(files: map<string, string>, path: string, attempts: seq<OpenAttempt>, parse: string -> Parsed<seq<Pair>>)
    requires path in files
    requires ProcessorFor(Extension(path)) in {Some(YamlProcessor), Some(DotEnvProcessor)}
    ensures FileEntries(files, path, attempts, parse) == Failure(NotImplemented)
  {
  }

  /** `LoadEnvironmentFromFile` */
  method LoadEnvironmentFromFile(path: string, fs: FileSystem, env: Environment, attempts: seq<OpenAttempt>,
                                 parse: string -> Parsed<seq<Pair>>) returns (o: Outcome<Fault>)
    modifies env
    ensures var e := FileEntries(fs.files, path, attempts, parse);
      && (e.Failure? ==> o == Fail(e.error) && env.vars == old(env.vars))
      && (e.Success? ==> o == Pass && env.vars == Applied(old(env.vars), e.value))
  {
    if !fs.Exists(path) {
      return Pass;
    }
    var processor := ProcessorFor(Extension(path));
    match processor {
      case None =>
        return Pass;
      case Some(YamlProcessor) =>
        return Fail(NotImplemented);
      case Some(DotEnvProcessor) =>
        return Fail(NotImplemented);
      case Some(JsonProcessor) =>
        o := ProcessJson(path, fs, env, attempts, parse);
    }
  }

  /** `ProcessJson`: wait for a shared read, read the text, deserialise and assign. */
  method ProcessJson(path: string, fs: FileSystem, env: Environment, attempts: seq<OpenAttempt>,
                     parse: string -> Parsed<seq<Pair>>) returns (o: Outcome<Fault>)
    requires path in fs.files
    modifies env
    ensures ReadWait(attempts).Failure? ==> o == Fail(ReadWait(attempts).error) && env.vars == old(env.vars)
    ensures ReadWait(attempts) == Success(false) ==> o == Fail(OperationCanceled) && env.vars == old(env.vars)
    ensures ReadWait(attempts) == Success(true) ==> match parse(fs.files[path])
      case Malformed => o == Fail(JsonFormat) && env.vars == old(env.vars)
      case Null => o == Pass && env.vars == old(env.vars)
      case Value(entries) => o == Pass && env.vars == Applied(old(env.vars), entries)
  {
    var ready, _ := WaitForRead(attempts);
    if ready.Failure? {
      return Fail(ready.error);
    }
    if !ready.value {
      // the token is already cancelled, so ReadAllTextAsync throws
      return Fail(OperationCanceled);
    }
    var json := fs.files[path];
    match parse(json) {
      case Malformed =>
        return Fail(JsonFormat);
      case Null =>
        return Pass;
      case Value(entries) =>
        env.SetAll(entries);
        return Pass;
    }
  }
}
