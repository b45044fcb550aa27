/**
 * The external output strategies of an intercept specification. The standard-output
 * handler starts `telepresence intercept run` and waits for the stdout line that carries
 * the JSON result; the file handler waits for the output file, loads it and deletes it.
 */
module OutputHandlers {
  import opened Wrappers
  import opened Text
  import opened Constants
  import opened Host
  import opened ProcessEnvironment
  import opened EnvironmentLoader
  import OutputLoader

  /** How a handler's `Handle` ends. */
  datatype Completion =
    | Completed
    /** `Handle` never returns: the awaited line or file never arrives. */
    | Blocked
    /** `Handle` throws. */
    | Raised(fault: Fault)
    /** The stdout event handler throws; it is `async void`, so the exception escapes to the process. */
    | Crashed(fault: Fault)

  /** A stdout line is the result payload iff it is non-blank, starts with '{' and mentions `"environment":`. */
  predicate IsPayloadLine(line: string) {
    !IsBlank(line) && StartsWith(line, "{") && Contains(line, "\"environment\":")
  }

  /** `line[..(line.LastIndexOf('}') + 1)]`: the line up to and including its last '}'. */
  function Payload(line: string): (r: string)
    ensures |r| <= |line| && r == line[..|r|]
    ensures r == "" <==> '}' !in line
    ensures r != "" ==> r[|r| - 1] == '}' && '}' !in line[|r|..]
  {
    var last := LastIndexOf(line, '}');
    assert last >= 0 ==> line[last] in line;
    line[..last + 1]
  }

  /** A payload that closes its object keeps the opening brace. */
  lemma PayloadStartsWithBrace(line: string)
    requires IsPayloadLine(line) && '}' in line
    ensures Payload(line)[0] == '{'
  {
  }

  /** Trailing text after the last '}' is cut off. */
  lemma PayloadExample()
    ensures Payload("{\"environment\":{}} done") == "{\"environment\":{}}"
  {
    var line := "{\"environment\":{}} done";
    assert LastIndexOf(line, '}') == 17 by {
      assert line[17] == '}';
      assert forall j :: 17 < j < |line| ==> line[j] != '}';
    }
  }

  /** The position of the first payload line, if any. */
  function FirstPayload(lines: seq<string>): (r: Option<nat>)
    ensures r.Some? ==> r.value < |lines| && IsPayloadLine(lines[r.value])
    ensures r.Some? ==> forall j :: 0 <= j < r.value ==> !IsPayloadLine(lines[j])
    ensures r.None? ==> forall j :: 0 <= j < |lines| ==> !IsPayloadLine(lines[j])
    decreases |lines|
  {
    if |lines| == 0 then None
    else if IsPayloadLine(lines[0]) then Some(0)
    else match FirstPayload(lines[1..])
      case None => None
      case Some(i) => Some(i + 1)
  }

  /**
   * `StandardOutputHandler.Handle`: start the process, then react to its stdout lines in
   * order. Blank lines and other lines are only logged; the first payload line is loaded
   * into the environment and completes the wait. No payload line means no completion:
   * the wait does not observe cancellation. A second payload line is loaded as well, and
   * its `SetResult` on the completed wait throws inside the `async void` handler.
   */
  method HandleStandardOutput(args: seq<string>, runner: CommandRunner, env: Environment,
                              parse: string -> Parsed<OutputLoader.InterceptOutput>) returns (end: Completion)
    modifies runner, env
    ensures runner.started == old(runner.started) + [args]
    ensures NextOutcome(old(runner.script)).Threw? ==>
      end == Raised(NextOutcome(old(runner.script)).fault) && env.vars == old(env.vars)
    ensures NextOutcome(old(runner.script)).Exited? ==>
      StdoutEffect(NextOutcome(old(runner.script)).stdout, parse, old(env.vars), end, env.vars)
  {
    var start := runner.Run(args);
    if start.Threw? {
      return Raised(start.fault);
    }
    var index := FindPayload(start.stdout);
    if index.None? {
      return Blocked;
    }
    var loaded := OutputLoader.LoadEnvironmentFromString(Payload(start.stdout[index.value]), env, parse);
    if loaded.Fail? {
      return Crashed(loaded.error);
    }
    var rest := start.stdout[index.value + 1..];
    var second := FindPayload(rest);
    if second.None? {
      return Completed;
    }
    var again := OutputLoader.LoadEnvironmentFromString(Payload(rest[second.value]), env, parse);
    if again.Fail? {
      return Crashed(again.error);
    }
    return Crashed(TaskAlreadyCompleted);
  }

  /**
   * What reacting to these stdout lines does: wait forever, crash on a bad payload, or load
   * the first payload and complete; a second payload is loaded and then crashes the process.
   */
  predicate StdoutEffect(lines: seq<string>, parse: string -> Parsed<OutputLoader.InterceptOutput>,
                         before: map<string, string>, end: Completion, after: map<string, string>)
  {
    match FirstPayload(lines)
    case None => end == Blocked && after == before
    case Some(i) =>
      var e := OutputLoader.TextEntries(Payload(lines[i]), parse);
      if e.Failure? then end == Crashed(e.error) && after == before
      else match FirstPayload(lines[i + 1..])
        case None => end == Completed && after == Applied(before, e.value)
        case Some(j) =>
          var e2 := OutputLoader.TextEntries(Payload(lines[i + 1..][j]), parse);
          if e2.Failure? then end == Crashed(e2.error) && after == Applied(before, e.value)
          else end == Crashed(TaskAlreadyCompleted) && after == Applied(Applied(before, e.value), e2.value)
  }

  /** The stdout event handler over the lines in order: blank and other lines are only logged. */
  method FindPayload(lines: seq<string>) returns (index: Option<nat>)
    ensures index == FirstPayload(lines)
  {
    var i := 0;
    while i < |lines|
      invariant 0 <= i <= |lines|
      invariant forall j :: 0 <= j < i ==> !IsPayloadLine(lines[j])
    {
      var line := lines[i];
      if !IsBlank(line) && StartsWith(line, "{") && Contains(line, "\"environment\":") {
        return Some(i);
      }
      i := i + 1;
    }
    return None;
  }

  /**
   * What the file handler does with the files and variables it starts from: nothing for a
   * blank path; `UnableToStartIntercept` for a missing file; otherwise the loader's effect,
   * after which a loaded file is gone.
   */
  predicate FileOutputEffect(outputPath: Option<string>, attempts: seq<OpenAttempt>,
                             parse: string -> Parsed<OutputLoader.InterceptOutput>,
                             files0: map<string, string>, vars0: map<string, string>,
                             o: Outcome<Fault>, files1: map<string, string>, vars1: map<string, string>)
  {
    if IsNullOrBlank(outputPath) then o == Pass && files1 == files0 && vars1 == vars0
    else if outputPath.value !in files0 then
      o == Fail(InvalidOperation(UnableToStartIntercept)) && files1 == files0 && vars1 == vars0
    else
      var e := OutputLoader.FileEntries(files0, outputPath.value, attempts, parse);
      && (e.Failure? ==> o == Fail(e.error) && files1 == files0 && vars1 == vars0)
      && (e.Success? ==> o == Pass && files1 == files0 - {outputPath.value} && vars1 == Applied(vars0, e.value))
  }

  /**
   * `FileOutputHandler.Handle`: a blank path does nothing. Otherwise wait for the file;
   * if it is still missing, the intercept could not start; else load it through the output
   * loader and delete it. The handler never starts the process itself.
   */
  method HandleFileOutput(outputPath: Option<string>, fs: FileSystem, env: Environment, checks: seq<bool>,
                          attempts: seq<OpenAttempt>, parse: string -> Parsed<OutputLoader.InterceptOutput>)
    returns (o: Outcome<Fault>)
    modifies fs`files, env
    ensures FileOutputEffect(outputPath, attempts, parse, old(fs.files), old(env.vars), o, fs.files, env.vars)
  {
    if IsNullOrBlank(outputPath) {
      return Pass;
    }
    var path := outputPath.value;
    var _, _ := WaitForOutputFile(checks);
    if !fs.Exists(path) {
      return Fail(InvalidOperation(UnableToStartIntercept));
    }
    o := OutputLoader.LoadEnvironmentFromFile(path, fs, env, attempts, parse);
    if o.Fail? {
      return;
    }
    if fs.Exists(path) {
      fs.Delete(path);
    }
  }
}
