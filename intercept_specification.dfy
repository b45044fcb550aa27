/**
 * `InterceptSpecification`: the validated root of an intercept specification, the YAML file
 * it is written to, and the `Run` / `Leave` sequences around the `telepresence` CLI.
 */
module InterceptSpecifications {
  import opened Wrappers
  import opened Text
  import opened Numbers
  import opened Constants
  import opened Patterns
  import opened Validation
  import opened Host
  import opened ProcessEnvironment
  import opened EnvironmentLoader
  import opened OutputHandlers
  import opened SpecEntities
  import opened SpecValues
  import OutputLoader

  /** `nameof(Telepresence).ToLowerInvariant()` */
  const TemporaryRoot := "telepresence"
  const SpecificationSuffix := "-intercept-specification.yaml"
  const DotnetUrls := "DOTNET_URLS"
  const AspNetCoreUrls := "ASPNETCORE_URLS"
  /** `object.ToString()` of the specification: what is written when serialisation throws. */
  const SpecificationTypeName := "Telepresence.NET.InterceptSpec.InterceptSpecification"

  /** `<tmp>/telepresence/<name>` */
  function SpecificationDirectory(tmp: string, name: string): string {
    Combine(Combine(tmp, TemporaryRoot), name)
  }

  /** `<tmp>/telepresence/<name>/<name>-intercept-specification.yaml` */
  function SpecificationPath(tmp: string, name: string): string {
    Combine(SpecificationDirectory(tmp, name), name + SpecificationSuffix)
  }

  /**
   * For a relative name under an absolute temp directory, the path is the directory, a separator
   * and the file name; that file name holds a separator exactly when the specification name does
   * (which the `{{` escape of the name check admits), so only then does the file not lie directly
   * in the directory.
   */
  lemma SpecificationPathLayout(tmp: string, name: string)
    requires StartsWith(tmp, "/") && |name| > 0 && name[0] != '/' && name[|name| - 1] != '/'
    ensures StartsWith(SpecificationDirectory(tmp, name), "/")
    ensures SpecificationPath(tmp, name) == SpecificationDirectory(tmp, name) + "/" + name + SpecificationSuffix
    ensures StartsWith(SpecificationPath(tmp, name), SpecificationDirectory(tmp, name) + "/")
    ensures ('/' in SpecificationPath(tmp, name)[|SpecificationDirectory(tmp, name)| + 1..]) <==> '/' in name
  {
    assert !StartsWith(TemporaryRoot, "/") by { assert TemporaryRoot[0] == 't'; }
    CombineEnds(tmp, TemporaryRoot);
    var root := Combine(tmp, TemporaryRoot);
    assert !StartsWith(name, "/");
    CombineEnds(root, name);
    var dir := SpecificationDirectory(tmp, name);
    assert dir[..1] == "/";
    var file := name + SpecificationSuffix;
    assert !StartsWith(file, "/") by { assert file[0] == name[0]; }
    CombineJoin(dir, file);
    FileAfterSeparator(dir, file);
    SuffixSeparatorFree(name);
  }

  /** The part after a directory and its separator is the file name. */
  lemma FileAfterSeparator(dir: string, file: string)
    ensures StartsWith(dir + "/" + file, dir + "/")
    ensures (dir + "/" + file)[|dir| + 1..] == file
  {
    assert (dir + "/" + file)[..|dir| + 1] == dir + "/";
  }

  /** The file name suffix adds no separator. */
  lemma SuffixSeparatorFree(name: string)
    ensures '/' in name + SpecificationSuffix <==> '/' in name
  {
    assert '/' !in SpecificationSuffix;
    assert forall i :: 0 <= i < |name| ==> (name + SpecificationSuffix)[i] == name[i];
  }

  /** `["intercept", "run", <spec path>]` */
  function RunCommand(path: string): seq<string> { ["intercept", "run", path] }

  /** `["leave", <intercept name>]` */
  function LeaveCommand(target: string): seq<string> { ["leave", target] }

  /** The Kestrel binding `http://+:{port}` written into `DOTNET_URLS` and `ASPNETCORE_URLS`. */
  function KestrelUrl(port: int): (r: string)
    ensures StartsWith(r, KestrelPrefix) && r[|KestrelPrefix|..] == DecimalString(port)
  {
    assert (KestrelPrefix + DecimalString(port))[|KestrelPrefix|..] == DecimalString(port);
    KestrelPrefix + DecimalString(port)
  }

  const KestrelPrefix := "http://+:"

  /** The port reads back from the binding. */
  lemma KestrelUrlPort(port: int)
    requires IsPort(port)
    ensures ParseInt32(KestrelUrl(port)[|KestrelPrefix|..]) == Some(port)
  {
    ParseDecimalString(port);
  }

  /** The check a default workload must pass: `new Workload { Name = <spec name> }`. */
  function DefaultWorkloadCheck(name: string): (r: Outcome<Fault>)
    ensures r == Pass <==> !IsBlank(name) && |name| <= 64 && IsLowerName(name)
  {
    CheckName("Name", Some(name), true, IsLowerName(name), AlphaNumericWithHyphens)
  }

  /** The check a default handler must pass: `new Handler { Name = <spec name> }`. */
  function DefaultHandlerCheck(name: string): (r: Outcome<Fault>)
    ensures r == Pass <==> !IsBlank(name) && |name| <= 64 && IsIdentifier(name)
  {
    CheckName("Name", Some(name), true, IsIdentifier(name), AlphaNumericWithHyphensUnderscores)
  }

  /** A spec name with an upper-case letter or an underscore cannot name the default workload. */
  lemma DefaultWorkloadRejects(name: string, i: nat)
    requires i < |name| && (IsAsciiUpper(name[i]) || name[i] == '_')
    ensures DefaultWorkloadCheck(name).Fail?
  {
    assert !IsLabelChar(name[i]) && !IsAsciiLower(name[i]);
    if |name| > 0 && EndsWithNewline(name) {
      assert i < |name| - 1;
      assert Chomp(name)[i] == name[i];
    }
  }

  /** Every name the specification accepts without a placeholder also names its default handler, up to 64 characters. */
  lemma DefaultHandlerAccepts(name: string)
    requires IsIdentifier(name) && |name| <= 64
    ensures DefaultHandlerCheck(name) == Pass
  {
    IdentifierNotBlank(name);
  }

  lemma IdentifierNotBlank(name: string)
    requires IsIdentifier(name)
    ensures !IsBlank(name)
  {
    assert IsAsciiLetter(name[0]) && !IsWhiteSpace(name[0]);
  }

  /** A placeholder name is accepted by the specification but cannot name the default handler. */
  lemma PlaceholderRejectedByDefaultHandler()
    ensures HasPlaceholder("{{name}}") && !IsIdentifier("{{name}}")
    ensures DefaultHandlerCheck("{{name}}").Fail?
  {
    assert "{{name}}"[..2] == "{{";
    assert StartsWith("{{name}}", "{{");
    assert !IsAsciiLetter("{{name}}"[0]);
    assert !IsAsciiLetter(Chomp("{{name}}")[0]);
  }

  /** What the specification's `Name` pattern accepts: an identifier, or any value holding a `{{` placeholder. */
  predicate SpecNameAccepted(value: string) { IsIdentifier(value) || HasPlaceholder(value) }

  /** What the default branch of the `Workloads` getter yields for the (memoised) spec name `n`. */
  ghost predicate WorkloadsDefaulted(n: Result<string, Fault>, r: Result<seq<Workload>, Fault>, workloads: Option<seq<Workload>>)
    reads if r.Success? then r.value else []
  {
    if n.Failure? then r == Failure(n.error) && workloads == None
    else if DefaultWorkloadCheck(n.value).Fail? then r == Failure(DefaultWorkloadCheck(n.value).error) && workloads == None
    else r.Success? && |r.value| == 1 && r.value[0].name == Some(n.value) && r.value[0].intercepts == None
         && workloads == Some(r.value)
  }

  /** What the default branch of the `Handlers` getter yields for the (memoised) spec name `n`. */
  ghost predicate HandlersDefaulted(n: Result<string, Fault>, r: Result<seq<Handler>, Fault>, handlers: Option<seq<Handler>>)
    reads if r.Success? then r.value else []
  {
    if n.Failure? then r == Failure(n.error) && handlers == None
    else if DefaultHandlerCheck(n.value).Fail? then r == Failure(DefaultHandlerCheck(n.value).error) && handlers == None
    else r.Success? && |r.value| == 1 && r.value[0].name == Some(n.value) && r.value[0].strategy == None
         && r.value[0].script == None && handlers == Some(r.value)
  }

  /** Every intercept object stored in some workload of the list. */
  function StoredIntercepts(workloads: Option<seq<Workload>>): set<WorkloadIntercept>
    reads Members(workloads)
  {
    set w, i | w in Members(workloads) && i in Members(w.intercepts) :: i
  }

  /** `DestroyAssets`' effect: the temporary directory tree is removed when it is set and exists. */
  ghost predicate Destroyed(directory: Option<string>, files0: map<string, string>, directories0: set<string>,
                            files1: map<string, string>, directories1: set<string>)
  {
    if directory.Some? && directory.value in directories0 then
      && directories1 == set d | d in directories0 && d != directory.value && !StartsWith(d, directory.value + "/")
      && files1 == map f | f in files0 && !StartsWith(f, directory.value + "/") :: files0[f]
    else files1 == files0 && directories1 == directories0
  }

  /** One step of the serializer's walk over the workloads: the first workload of `ws`, read to its end or its first throw. */
  method SerializeFirst(ws: seq<Workload>, ghost stored: set<WorkloadIntercept>, entryAssemblyName: Option<string>,
                        draws: seq<int>, inUse: set<int>, userName: string)
    returns (ok: bool, ghost created: set<WorkloadIntercept>)
    requires |ws| > 0
    requires forall w :: w in ws ==> w.Valid()
    requires forall w, i :: w in ws && i in Members(w.intercepts) ==> i in stored
    requires forall i :: 0 <= i < |draws| ==> RandomPortLow <= draws[i] < RandomPortHigh
    requires FirstFree(draws, inUse).Some?
    modifies ws[0], stored
    ensures forall w :: w in ws ==> w.Valid()
    ensures ok <==> old(ws[0].Serializable(entryAssemblyName))
    ensures ws[0].name == MemoUpdated(old(ws[0].name), entryAssemblyName)
    ensures
      || ws[0].intercepts == old(ws[0].intercepts)
      || (old(ws[0].intercepts).None? && ws[0].intercepts.Some? && |ws[0].intercepts.value| == 1
          && fresh(ws[0].intercepts.value[0]))
    ensures forall i :: i in stored ==>
      || i.Memo() == old(i.Memo())
      || i.Memo() == SerializedIntercept(old(i.Memo()), entryAssemblyName, FirstFree(draws, inUse).value, userName)
    ensures forall i :: i in stored && old(i.Memo()).Filled() ==> i.Memo() == old(i.Memo())
    ensures forall w :: w in ws && w != ws[0] ==> w.Serializable(entryAssemblyName) == old(w.Serializable(entryAssemblyName))
    ensures ok ==> ws[0].Serialized()
    ensures fresh(created)
    ensures forall w, i :: w in ws && i in Members(w.intercepts) ==> i in stored || i in created
  {
    ghost var drawn := FirstFree(draws, inUse).value;
    var o := ws[0].Serialize(entryAssemblyName, draws, inUse, userName);
    created := if ws[0].intercepts == old(ws[0].intercepts) then {} else {ws[0].intercepts.value[0]};
    forall i | i in stored
      ensures MemoName(i.name, entryAssemblyName).Success? == MemoName(old(i.name), entryAssemblyName).Success?
      ensures old(i.Memo()).Filled() ==> i.Memo() == old(i.Memo())
    {
      SerializedInterceptStable(old(i.Memo()), entryAssemblyName, drawn, userName);
    }
    ok := o.Pass?;
  }

  /**
   * The serializer reading each workload in turn, stopping at the first throw. `stored` holds
   * at least every intercept the workloads store: the ones the reads may touch.
   */
  method SerializeWorkloads(ws: seq<Workload>, ghost stored: set<WorkloadIntercept>, entryAssemblyName: Option<string>,
                            draws: seq<int>, inUse: set<int>, userName: string)
    returns (ok: bool, ghost created: set<WorkloadIntercept>)
    requires forall w :: w in ws ==> w.Valid()
    requires forall w, i :: w in ws && i in Members(w.intercepts) ==> i in stored
    requires forall i :: 0 <= i < |draws| ==> RandomPortLow <= draws[i] < RandomPortHigh
    requires FirstFree(draws, inUse).Some?
    modifies ws, stored
    ensures forall w :: w in ws ==> w.Valid()
    ensures ok <==> old(forall w :: w in ws ==> w.Serializable(entryAssemblyName))
    ensures forall w :: w in ws ==> w.name == old(w.name) || w.name == MemoUpdated(old(w.name), entryAssemblyName)
    ensures forall w :: w in ws ==>
      || w.intercepts == old(w.intercepts)
      || (old(w.intercepts).None? && w.intercepts.Some? && |w.intercepts.value| == 1 && fresh(w.intercepts.value[0]))
    ensures forall i :: i in stored ==>
      || i.Memo() == old(i.Memo())
      || i.Memo() == SerializedIntercept(old(i.Memo()), entryAssemblyName, FirstFree(draws, inUse).value, userName)
    ensures ok ==> forall w :: w in ws ==> w.Serialized()
    ensures forall i :: i in stored && old(i.Memo()).Filled() ==> i.Memo() == old(i.Memo())
    ensures fresh(created)
    ensures forall w, i :: w in ws && i in Members(w.intercepts) ==> i in stored || i in created
    decreases |ws|
  {
    if |ws| == 0 {
      return true, {};
    }
    ghost var drawn := FirstFree(draws, inUse).value;
    var w := ws[0];
    ghost var first;
    ok, first := SerializeFirst(ws, stored, entryAssemblyName, draws, inUse, userName);
    if !ok {
      return ok, first;
    }
    SerializedIsSerializable(w, entryAssemblyName);
    ghost var rest;
    ok, rest := SerializeWorkloads(ws[1..], stored + first, entryAssemblyName, draws, inUse, userName);
    created := first + rest;
    forall i | i in stored
      ensures i.Memo() == old(i.Memo()) || i.Memo() == SerializedIntercept(old(i.Memo()), entryAssemblyName, drawn, userName)
    {
      SerializedInterceptStable(old(i.Memo()), entryAssemblyName, drawn, userName);
    }
  }

  /** A workload read to the end reads again without a throw. */
  lemma SerializedIsSerializable(w: Workload, entryAssemblyName: Option<string>)
    requires w.Serialized()
    ensures w.Serializable(entryAssemblyName)
  {
  }

  /** The serializer reading each handler in turn, stopping at the first throw. */
  method SerializeHandlers(hs: seq<Handler>, entryAssemblyName: Option<string>) returns (ok: bool)
    modifies hs
    ensures ok <==> old(forall h :: h in hs ==> HandlerSerializable(h.name, h.script, entryAssemblyName))
    ensures forall h :: h in hs ==> h.script == old(h.script) && h.docker == old(h.docker) && h.environment == old(h.environment)
    ensures forall h :: h in hs ==>
      h.Memo() == old(h.Memo()) || h.Memo() == SerializedHandler(old(h.Memo()), h.script, entryAssemblyName)
    ensures ok ==> forall h :: h in hs ==> h.Memo() == SerializedHandler(old(h.Memo()), h.script, entryAssemblyName)
  {
    var k := 0;
    while k < |hs|
      invariant 0 <= k <= |hs|
      invariant forall h :: h in hs ==> h.script == old(h.script) && h.docker == old(h.docker) && h.environment == old(h.environment)
      invariant forall h :: h in hs ==>
        h.Memo() == old(h.Memo()) || h.Memo() == SerializedHandler(old(h.Memo()), h.script, entryAssemblyName)
      invariant forall j :: 0 <= j < k ==>
        && hs[j].Memo() == SerializedHandler(old(hs[j].Memo()), hs[j].script, entryAssemblyName)
        && old(HandlerSerializable(hs[j].name, hs[j].script, entryAssemblyName))
    {
      var h := hs[k];
      SerializedHandlerStable(old(h.Memo()), h.script, entryAssemblyName);
      var o := h.Serialize(entryAssemblyName);
      if o.Fail? {
        return false;
      }
      k := k + 1;
    }
    return true;
  }

  /**
   * What the `try` block of `Run` does once the intercept and handler are found: the handler's
   * effect, then, when it completed, both Kestrel variables pointed at the intercept's local
   * port (`None` while the port generator is still drawing).
   */
  ghost predicate HandledThenBound(strategy: Option<External>, args: seq<string>, checks: seq<bool>,
                                   attempts: seq<OpenAttempt>, parse: string -> Parsed<OutputLoader.InterceptOutput>,
                                   started0: seq<seq<string>>, script0: seq<RunOutcome>, files0: map<string, string>,
                                   vars0: map<string, string>, port: Option<int>, end: Completion,
                                   started1: seq<seq<string>>, files1: map<string, string>, vars1: map<string, string>)
  {
    exists handled: Completion, vars: map<string, string> ::
      && HandleEffect(strategy, args, checks, attempts, parse, started0, script0, files0, vars0, handled, started1, files1, vars)
      && (handled != Completed ==> end == handled && vars1 == vars)
      && (handled == Completed && port.None? ==> end == Blocked && vars1 == vars)
      && (handled == Completed && port.Some? ==>
            end == Completed && vars1 == vars[DotnetUrls := KestrelUrl(port.value)][AspNetCoreUrls := KestrelUrl(port.value)])
  }

  /** The command runs at most once, and a completed start has both Kestrel variables naming the port. */
  lemma HandledThenBoundOutcome(strategy: Option<External>, args: seq<string>, checks: seq<bool>,
                                attempts: seq<OpenAttempt>, parse: string -> Parsed<OutputLoader.InterceptOutput>,
                                started0: seq<seq<string>>, script0: seq<RunOutcome>, files0: map<string, string>,
                                vars0: map<string, string>, port: Option<int>, end: Completion,
                                started1: seq<seq<string>>, files1: map<string, string>, vars1: map<string, string>)
    requires HandledThenBound(strategy, args, checks, attempts, parse, started0, script0, files0, vars0, port, end,
                              started1, files1, vars1)
    ensures started1 == started0 || started1 == started0 + [args]
    ensures end == Completed ==>
      port.Some? && Lookup(vars1, DotnetUrls) == Some(KestrelUrl(port.value))
      && Lookup(vars1, AspNetCoreUrls) == Some(KestrelUrl(port.value))
  {
    var handled, vars :| HandleEffect(strategy, args, checks, attempts, parse, started0, script0, files0, vars0, handled,
                                      started1, files1, vars)
      && (handled != Completed ==> end == handled && vars1 == vars)
      && (handled == Completed && port.None? ==> end == Blocked && vars1 == vars)
      && (handled == Completed && port.Some? ==>
            end == Completed && vars1 == vars[DotnetUrls := KestrelUrl(port.value)][AspNetCoreUrls := KestrelUrl(port.value)]);
    HandleStartsAtMostOnce(strategy, args, checks, attempts, parse, started0, script0, files0, vars0, handled,
                           started1, files1, vars);
    if end == Completed {
      assert handled == Completed;
    }
  }

  /**
   * The `try` block of `Run` once the intercept and handler are found: run the handler, then,
   * when it completed, point both Kestrel variables at the intercept's local port.
   */
  method StartLocated(intercept: WorkloadIntercept, handler: Handler, args: seq<string>, runner: CommandRunner,
                      fs: FileSystem, env: Environment, checks: seq<bool>, attempts: seq<OpenAttempt>,
                      parse: string -> Parsed<OutputLoader.InterceptOutput>, draws: seq<int>, inUse: set<int>)
    returns (end: Completion)
    requires forall i :: 0 <= i < |draws| ==> RandomPortLow <= draws[i] < RandomPortHigh
    modifies intercept`localPort, runner, fs`files, env
    ensures HandledThenBound(handler.strategy, args, checks, attempts, parse, old(runner.started), old(runner.script),
                             old(fs.files), old(env.vars), intercept.localPort, end, runner.started, fs.files, env.vars)
    ensures old(intercept.localPort).Some? ==> intercept.localPort == old(intercept.localPort)
    ensures runner.started == old(runner.started) || runner.started == old(runner.started) + [args]
    ensures end == Completed ==>
      && intercept.localPort.Some?
      && Lookup(env.vars, DotnetUrls) == Some(KestrelUrl(intercept.localPort.value))
      && Lookup(env.vars, AspNetCoreUrls) == Some(KestrelUrl(intercept.localPort.value))
  {
    ghost var started0, script0, files0, vars0 := runner.started, runner.script, fs.files, env.vars;
    var handled := handler.Handle(args, runner, fs, env, checks, attempts, parse);
    ghost var vars := env.vars;
    assert HandleEffect(handler.strategy, args, checks, attempts, parse, started0, script0, files0, vars0, handled,
                        runner.started, fs.files, vars);
    if handled != Completed {
      end := handled;
    } else {
      var port := intercept.GetLocalPort(draws, inUse);
      if port.None? {
        end := Blocked;
      } else {
        var url := KestrelUrl(port.value);
        env.Set(DotnetUrls, url);
        env.Set(AspNetCoreUrls, url);
        end := Completed;
      }
    }
    assert HandledThenBound(handler.strategy, args, checks, attempts, parse, started0, script0, files0, vars0,
                            intercept.localPort, end, runner.started, fs.files, env.vars);
    HandledThenBoundOutcome(handler.strategy, args, checks, attempts, parse, started0, script0, files0, vars0,
                            intercept.localPort, end, runner.started, fs.files, env.vars);
  }

  /** `Directory.CreateDirectory` when the directory is missing, then `File.WriteAllTextAsync`. */
  method WriteSpecification(fs: FileSystem, directory: string, path: string, text: string)
    modifies fs
    ensures fs.directories == old(fs.directories) + {directory}
    ensures fs.files == old(fs.files)[path := text]
  {
    if directory !in fs.directories {
      fs.CreateDirectory(directory);
    }
    fs.WriteAllText(path, text);
  }

  /** Whether the serializer reads `Workloads` and everything below it without a throw, the spec name being `n`. */
  predicate WorkloadsSerializable(workloads: Option<seq<Workload>>, repr: set<WorkloadIntercept>, n: string,
                                 entryAssemblyName: Option<string>)
    requires forall w, i :: w in Members(workloads) && i in Members(w.intercepts) ==> i in repr
    reads Members(workloads), repr
  {
    && (workloads.None? ==> DefaultWorkloadCheck(n) == Pass)
    && (forall w :: w in Members(workloads) ==> w.Serializable(entryAssemblyName))
  }

  /** Whether the serializer reads `Handlers` and everything below it without a throw, the spec name being `n`. */
  predicate HandlersSerializable(handlers: Option<seq<Handler>>, n: string, entryAssemblyName: Option<string>)
    reads Members(handlers)
  {
    && (handlers.None? ==> DefaultHandlerCheck(n) == Pass)
    && (forall h :: h in Members(handlers) ==> HandlerSerializable(h.name, h.script, entryAssemblyName))
  }

  /** The default workload `new Workload { Name = n }` reads to its end: its default intercept takes the same name. */
  lemma DefaultWorkloadSerializable(w: Workload, n: string, entryAssemblyName: Option<string>)
    requires DefaultWorkloadCheck(n) == Pass
    requires w.name == Some(n) && w.intercepts == None
    ensures w.Serializable(entryAssemblyName)
  {
    WorkloadNameFitsIntercept(n);
  }

  class InterceptSpecification {
    var name: Option<string>
    var connection: Option<Connection>
    var workloads: Option<seq<Workload>>
    var handlers: Option<seq<Handler>>
    var temporaryDirectory: Option<string>
    var specificationPath: Option<string>
    /** Every intercept object the workloads store (and perhaps more): what the serializer's reads may touch. */
    ghost var Repr: set<WorkloadIntercept>

    /** The collection bounds the `init` accessors establish, each workload's own, and the footprint. */
    ghost predicate Valid()
      reads this`workloads, this`handlers, this`Repr, Members(workloads)
    {
      && (workloads.Some? ==> 1 <= |workloads.value| <= 32)
      && (handlers.Some? ==> 1 <= |handlers.value| <= 64)
      && (forall w :: w in Members(workloads) ==> w.Valid())
      && (forall w, i :: w in Members(workloads) && i in Members(w.intercepts) ==> i in Repr)
    }

    constructor ()
      ensures Valid()
      ensures name == None && connection == None && workloads == None && handlers == None
      ensures temporaryDirectory == None && specificationPath == None
    {
      name, connection, workloads, handlers := None, None, None, None;
      temporaryDirectory, specificationPath := None, None;
      Repr := {};
    }

    /** `Name` init: required; a letter then `[A-Za-z0-9_-]*`, or anything containing `{{`; no length limit. */
    method InitName(value: Option<string>) returns (o: Outcome<Fault>)
      modifies this`name
      ensures o == CheckName("Name", value, false, value.Some? && SpecNameAccepted(value.value), AlphaNumericWithHyphens)
      ensures name == if o.Pass? then value else old(name)
    {
      o := CheckName("Name", value, false, value.Some? && SpecNameAccepted(value.value), AlphaNumericWithHyphens);
      if o.Pass? {
        name := value;
      }
    }

    /** `Name` getter: `_name ??= NormalizedEntryAssembly`. */
    method GetName(entryAssemblyName: Option<string>) returns (r: Result<string, Fault>)
      modifies this`name
      ensures r == MemoName(old(name), entryAssemblyName)
      ensures name == if r.Success? then Some(r.value) else old(name)
    {
      r := MemoName(name, entryAssemblyName);
      if r.Success? {
        name := Some(r.value);
      }
    }

    /** `Connection` init: null throws. */
    method InitConnection(value: Option<Connection>) returns (o: Outcome<Fault>)
      modifies this`connection
      ensures o == if value.None? then Fail(ArgumentNull("Connection")) else Pass
      ensures connection == if value.None? then old(connection) else value
    {
      if value.None? {
        return Fail(ArgumentNull("Connection"));
      }
      connection := value;
      return Pass;
    }

    /** `Connection` getter: `_connection ??= new Connection()`, whose context comes from the kubeconfig. */
    method GetConnection(currentContext: string) returns (c: Connection)
      modifies this`connection
      ensures old(connection).Some? ==> c == old(connection).value
      ensures old(connection).None? ==> fresh(c) && c.context == currentContext && c.name == None && c.Valid()
      ensures connection == Some(c)
    {
      if connection.None? {
        var created := new Connection(currentContext);
        connection := Some(created);
      }
      c := connection.value;
    }

    /** `Workloads` init: null throws; 1..32 entries. */
    method InitWorkloads(value: Option<seq<Workload>>) returns (o: Outcome<Fault>)
      modifies this`workloads, this`Repr
      ensures value.None? ==> o == Fail(ArgumentNull("Workloads"))
      ensures value.Some? ==> (o == Pass <==> 1 <= |value.value| <= 32)
      ensures value.Some? && o.Fail? ==> o.error == InvalidOperation(InvalidNumberOfWorkloadsDefined)
      ensures workloads == if o.Pass? then value else old(workloads)
      ensures o.Pass? ==> Repr == old(Repr) + StoredIntercepts(value)
    {
      if value.None? {
        return Fail(ArgumentNull("Workloads"));
      }
      if !(1 <= |value.value| <= 32) {
        return Fail(InvalidOperation(InvalidNumberOfWorkloadsDefined));
      }
      workloads := value;
      Repr := Repr + StoredIntercepts(value);
      return Pass;
    }

    /**
     * `Handlers` init: null throws; 1..64 entries; then, in order, each handler's `External`
     * is read (installing the default) and the parity check applied, stopping at the first
     * handler that fails it.
     */
    method InitHandlers(value: Option<seq<Handler>>) returns (o: Outcome<Fault>)
      modifies this`handlers, Members(value)
      ensures value.None? ==> o == Fail(ArgumentNull("Handlers")) && unchanged(Members(value))
      ensures value.Some? && !(1 <= |value.value| <= 64) ==>
        o == Fail(InvalidOperation(InvalidNumberOfHandlersDefined)) && unchanged(Members(value))
      ensures value.Some? && 1 <= |value.value| <= 64 ==>
        (o == Pass <==> forall i :: 0 <= i < |value.value| ==> PassesHandlerCheck(value.value[i].docker, value.value[i].script))
      ensures o.Fail? && value.Some? && 1 <= |value.value| <= 64 ==> o.error == InvalidOperation(MutuallyExclusiveHandlers)
      ensures handlers == if o.Pass? then value else old(handlers)
      ensures forall h :: h in Members(value) ==> h.docker == old(h.docker) && h.script == old(h.script) && h.name == old(h.name)
      ensures o.Pass? ==> forall h :: h in Members(value) ==> h.strategy.Some?
      ensures forall h :: h in Members(value) ==> h.strategy == old(h.strategy) || (old(h.strategy).None? && h.strategy == Some(SpecValues.DefaultExternal))
    {
      if value.None? {
        return Fail(ArgumentNull("Handlers"));
      }
      var hs := value.value;
      if !(1 <= |hs| <= 64) {
        return Fail(InvalidOperation(InvalidNumberOfHandlersDefined));
      }
      var i := 0;
      while i < |hs|
        invariant 0 <= i <= |hs|
        invariant handlers == old(handlers)
        invariant forall j :: 0 <= j < i ==> PassesHandlerCheck(hs[j].docker, hs[j].script)
        invariant forall h :: h in hs ==> h.docker == old(h.docker) && h.script == old(h.script) && h.name == old(h.name)
        invariant forall h :: h in hs[..i] ==> h.strategy.Some?
        invariant forall h :: h in hs ==> h.strategy == old(h.strategy) || (old(h.strategy).None? && h.strategy == Some(SpecValues.DefaultExternal))
      {
        var external := hs[i].GetExternal();
        if !PassesHandlerCheck(hs[i].docker, hs[i].script) {
          return Fail(InvalidOperation(MutuallyExclusiveHandlers));
        }
        assert hs[..i + 1] == hs[..i] + [hs[i]];
        i := i + 1;
      }
      assert hs[..i] == hs;
      handlers := value;
      return Pass;
    }

    /** `Workloads` getter: `_workloads ??= [new Workload { Name = Name }]`; the default reads (and memoises) `Name`. */
    method GetWorkloads(entryAssemblyName: Option<string>) returns (r: Result<seq<Workload>, Fault>)
      requires Valid()
      modifies this`name, this`workloads
      ensures Valid()
      ensures old(workloads).Some? ==> r == Success(old(workloads).value) && name == old(name) && workloads == old(workloads)
      ensures old(workloads).None? ==>
        name == MemoUpdated(old(name), entryAssemblyName)
        && WorkloadsDefaulted(MemoName(old(name), entryAssemblyName), r, workloads)
      ensures old(workloads).None? && r.Success? ==> fresh(r.value[0])
      ensures r.Success? ==> 1 <= |r.value| <= 32 && workloads == Some(r.value)
    {
      if workloads.Some? {
        return Success(workloads.value);
      }
      var n := GetName(entryAssemblyName);
      if n.Failure? {
        return Failure(n.error);
      }
      var w := new Workload();
      var o := w.InitName(Some(n.value));
      if o.Fail? {
        return Failure(o.error);
      }
      workloads := Some([w]);
      return Success([w]);
    }

    /** `Handlers` getter: `_handlers ??= [new Handler { Name = Name }]`; the default has no strategy installed. */
    method GetHandlers(entryAssemblyName: Option<string>) returns (r: Result<seq<Handler>, Fault>)
      requires Valid()
      modifies this`name, this`handlers
      ensures Valid()
      ensures old(handlers).Some? ==> r == Success(old(handlers).value) && name == old(name) && handlers == old(handlers)
      ensures old(handlers).None? ==>
        name == MemoUpdated(old(name), entryAssemblyName)
        && HandlersDefaulted(MemoName(old(name), entryAssemblyName), r, handlers)
      ensures old(handlers).None? && r.Success? ==> fresh(r.value[0])
      ensures r.Success? ==> 1 <= |r.value| <= 64 && handlers == Some(r.value)
    {
      if handlers.Some? {
        return Success(handlers.value);
      }
      var n := GetName(entryAssemblyName);
      if n.Failure? {
        return Failure(n.error);
      }
      var h := new Handler();
      var o := h.InitName(Some(n.value));
      if o.Fail? {
        return Failure(o.error);
      }
      handlers := Some([h]);
      return Success([h]);
    }

    /** The stored connection object, if any. */
    function ConnectionObjects(): set<Connection>
      reads this`connection
    {
      if connection.Some? then {connection.value} else {}
    }

    /**
     * Whether serializing reads every getter without a throw: a name is found, the workloads
     * (or the default workload) and every intercept are read, and so are the handlers (or the
     * default handler). The connection's getters never throw.
     */
    ghost predicate Serializable(entryAssemblyName: Option<string>)
      requires Valid()
      reads this`name, this`workloads, this`handlers, this`Repr, Members(workloads), Repr, Members(handlers)
    {
      var n := MemoName(name, entryAssemblyName);
      && n.Success?
      && WorkloadsSerializable(workloads, Repr, n.value, entryAssemblyName)
      && HandlersSerializable(handlers, n.value, entryAssemblyName)
    }

    /** Whether `Workloads.First().Intercepts.First()` reads without a throw. */
    predicate FirstReadable(entryAssemblyName: Option<string>)
      reads this`name, this`workloads, Members(workloads)
    {
      var n := MemoName(name, entryAssemblyName);
      && (workloads.None? ==> n.Success? && DefaultWorkloadCheck(n.value) == Pass)
      && (workloads.Some? && |workloads.value| > 0 ==> workloads.value[0].InterceptsReadable())
    }

    /** Whether the reads at the head of `Run`'s `try` block succeed: the first intercept, then `Handlers`. */
    predicate Locatable(entryAssemblyName: Option<string>)
      reads this`name, this`workloads, this`handlers, Members(workloads)
    {
      var n := MemoName(name, entryAssemblyName);
      && FirstReadable(entryAssemblyName)
      && (handlers.None? ==> n.Success? && DefaultHandlerCheck(n.value) == Pass)
    }

    /**
     * `ToString`: the serializer reads `Name`, `Connection`, `Workloads` and `Handlers`, each
     * down to its leaves, in declaration order; a throw anywhere makes the text the type name.
     * What was memoised before the throw stays memoised. `yaml` is the serializer's text.
     */
    method Render(entryAssemblyName: Option<string>, currentContext: string, configNamespace: Option<string>,
                  userName: string, draws: seq<int>, inUse: set<int>, yaml: string)
      returns (text: string, serialised: bool)
      requires Valid()
      requires forall i :: 0 <= i < |draws| ==> RandomPortLow <= draws[i] < RandomPortHigh
      requires FirstFree(draws, inUse).Some?
      modifies this`name, this`connection, this`workloads, this`handlers, this`Repr, ConnectionObjects(), Members(workloads),
               Repr, Members(handlers)
      ensures Valid()
      ensures serialised <==> old(Serializable(entryAssemblyName))
      ensures text == if serialised then yaml else SpecificationTypeName
      ensures name == MemoUpdated(old(name), entryAssemblyName)
      ensures old(connection).Some? ==> connection == old(connection)
      ensures serialised ==> connection.Some? && connection.value.name.Some?
      ensures old(workloads).Some? ==> workloads == old(workloads)
      ensures old(workloads).None? && workloads.Some? ==> |workloads.value| == 1 && fresh(workloads.value[0])
      ensures old(Repr) <= Repr && fresh(Repr - old(Repr))
      ensures forall i :: i in old(Repr) ==>
        || i.Memo() == old(i.Memo())
        || i.Memo() == SerializedIntercept(old(i.Memo()), entryAssemblyName, FirstFree(draws, inUse).value, userName)
      ensures old(handlers).Some? ==> handlers == old(handlers)
      ensures old(handlers).None? && handlers.Some? ==> |handlers.value| == 1 && fresh(handlers.value[0])
      ensures forall h :: h in Members(old(handlers)) ==>
        && h.script == old(h.script)
        && (h.Memo() == old(h.Memo()) || h.Memo() == SerializedHandler(old(h.Memo()), h.script, entryAssemblyName))
      ensures serialised ==> forall h :: h in Members(old(handlers)) ==>
        h.Memo() == SerializedHandler(old(h.Memo()), h.script, entryAssemblyName)
      ensures serialised ==> forall h :: h in Members(handlers) ==> h.name.Some? && h.strategy.Some?
      ensures serialised ==> Locatable(entryAssemblyName)
    {
      var n := MemoName(name, entryAssemblyName);
      if n.Failure? {
        return SpecificationTypeName, false;
      }
      name := Some(n.value);
      serialised := SerializeProperties(entryAssemblyName, currentContext, configNamespace, userName, draws, inUse);
      text := if serialised then yaml else SpecificationTypeName;
    }

    /** The serializer reading `Connection`, `Workloads` and `Handlers`, once `Name` is memoised. */
    method SerializeProperties(entryAssemblyName: Option<string>, currentContext: string, configNamespace: Option<string>,
                               userName: string, draws: seq<int>, inUse: set<int>)
      returns (serialised: bool)
      requires Valid() && name.Some?
      requires forall i :: 0 <= i < |draws| ==> RandomPortLow <= draws[i] < RandomPortHigh
      requires FirstFree(draws, inUse).Some?
      modifies this`name, this`connection, this`workloads, this`handlers, this`Repr, ConnectionObjects(), Members(workloads),
               Repr, Members(handlers)
      ensures Valid()
      ensures name == old(name)
      ensures serialised <==>
        && old(WorkloadsSerializable(workloads, Repr, name.value, entryAssemblyName))
        && old(HandlersSerializable(handlers, name.value, entryAssemblyName))
      ensures old(connection).Some? ==> connection == old(connection)
      ensures serialised ==> connection.Some? && connection.value.name.Some?
      ensures old(workloads).Some? ==> workloads == old(workloads)
      ensures old(workloads).None? && workloads.Some? ==> |workloads.value| == 1 && fresh(workloads.value[0])
      ensures old(Repr) <= Repr && fresh(Repr - old(Repr))
      ensures forall i :: i in old(Repr) ==>
        || i.Memo() == old(i.Memo())
        || i.Memo() == SerializedIntercept(old(i.Memo()), entryAssemblyName, FirstFree(draws, inUse).value, userName)
      ensures old(handlers).Some? ==> handlers == old(handlers)
      ensures old(handlers).None? && handlers.Some? ==> |handlers.value| == 1 && fresh(handlers.value[0])
      ensures forall h :: h in Members(old(handlers)) ==>
        && h.script == old(h.script)
        && (h.Memo() == old(h.Memo()) || h.Memo() == SerializedHandler(old(h.Memo()), h.script, entryAssemblyName))
      ensures serialised ==> forall h :: h in Members(old(handlers)) ==>
        h.Memo() == SerializedHandler(old(h.Memo()), h.script, entryAssemblyName)
      ensures serialised ==> forall h: Handler :: h in Members<Handler>(handlers) ==> h.name.Some? && h.strategy.Some?
      ensures serialised ==> Locatable(entryAssemblyName)
    {
      SerializeConnection(currentContext, configNamespace);
      serialised := SerializeCollections(entryAssemblyName, draws, inUse, userName);
    }

    /** The serializer reading `Connection`: the getter, then the connection's own getters; none of them throws. */
    method SerializeConnection(currentContext: string, configNamespace: Option<string>)
      modifies this`connection, ConnectionObjects()
      ensures old(connection).Some? ==> connection == old(connection)
      ensures old(connection).None? ==> connection.Some? && fresh(connection.value)
      ensures connection.Some? && connection.value.name.Some?
      ensures unchanged(Members(workloads), Repr, Members(handlers))
    {
      var c := GetConnection(currentContext);
      c.Serialize(configNamespace);
    }

    /** The serializer reading `Workloads` and then `Handlers`, once `Name` is memoised. */
    method SerializeCollections(entryAssemblyName: Option<string>, draws: seq<int>, inUse: set<int>, userName: string)
      returns (serialised: bool)
      requires Valid() && name.Some?
      requires forall i :: 0 <= i < |draws| ==> RandomPortLow <= draws[i] < RandomPortHigh
      requires FirstFree(draws, inUse).Some?
      modifies this`name, this`workloads, this`handlers, this`Repr, Members(workloads), Repr, Members(handlers)
      ensures Valid()
      ensures name == old(name)
      ensures serialised <==>
        && old(WorkloadsSerializable(workloads, Repr, name.value, entryAssemblyName))
        && old(HandlersSerializable(handlers, name.value, entryAssemblyName))
      ensures old(workloads).Some? ==> workloads == old(workloads)
      ensures old(workloads).None? && workloads.Some? ==> |workloads.value| == 1 && fresh(workloads.value[0])
      ensures old(Repr) <= Repr && fresh(Repr - old(Repr))
      ensures forall i :: i in old(Repr) ==>
        || i.Memo() == old(i.Memo())
        || i.Memo() == SerializedIntercept(old(i.Memo()), entryAssemblyName, FirstFree(draws, inUse).value, userName)
      ensures old(handlers).Some? ==> handlers == old(handlers)
      ensures old(handlers).None? && handlers.Some? ==> |handlers.value| == 1 && fresh(handlers.value[0])
      ensures forall h :: h in Members(old(handlers)) ==>
        && h.script == old(h.script)
        && (h.Memo() == old(h.Memo()) || h.Memo() == SerializedHandler(old(h.Memo()), h.script, entryAssemblyName))
      ensures serialised ==> forall h :: h in Members(old(handlers)) ==>
        h.Memo() == SerializedHandler(old(h.Memo()), h.script, entryAssemblyName)
      ensures serialised ==> forall h :: h in Members(handlers) ==> h.name.Some? && h.strategy.Some?
      ensures serialised ==> Locatable(entryAssemblyName)
    {
      serialised := SerializeWorkloadsProperty(entryAssemblyName, draws, inUse, userName);
      if !serialised {
        return;
      }
      serialised := SerializeHandlersProperty(entryAssemblyName);
    }

    /** The serializer reading `Workloads` once `Name` is memoised: the getter, then every workload in turn. */
    method SerializeWorkloadsProperty(entryAssemblyName: Option<string>, draws: seq<int>, inUse: set<int>, userName: string)
      returns (ok: bool)
      requires Valid() && name.Some?
      requires forall i :: 0 <= i < |draws| ==> RandomPortLow <= draws[i] < RandomPortHigh
      requires FirstFree(draws, inUse).Some?
      modifies this`name, this`workloads, this`Repr, Members(workloads), Repr
      ensures Valid()
      ensures name == old(name)
      ensures ok <==> old(WorkloadsSerializable(workloads, Repr, name.value, entryAssemblyName))
      ensures old(workloads).Some? ==> workloads == old(workloads)
      ensures old(workloads).None? && workloads.Some? ==> |workloads.value| == 1 && fresh(workloads.value[0])
      ensures old(Repr) <= Repr && fresh(Repr - old(Repr))
      ensures forall i :: i in old(Repr) ==>
        || i.Memo() == old(i.Memo())
        || i.Memo() == SerializedIntercept(old(i.Memo()), entryAssemblyName, FirstFree(draws, inUse).value, userName)
      ensures ok ==> FirstReadable(entryAssemblyName)
    {
      if workloads.None? {
        var ws := GetWorkloads(entryAssemblyName);
        if ws.Failure? {
          return false;
        }
        DefaultWorkloadSerializable(ws.value[0], name.value, entryAssemblyName);
        assert old(WorkloadsSerializable(workloads, Repr, name.value, entryAssemblyName));
      } else {
        assert old(WorkloadsSerializable(workloads, Repr, name.value, entryAssemblyName))
           == forall w :: w in workloads.value ==> w.Serializable(entryAssemblyName);
      }
      ghost var fields := (name, workloads, handlers, Repr);
      ghost var created;
      ok, created := SerializeWorkloads(workloads.value, Repr, entryAssemblyName, draws, inUse, userName);
      assert (name, workloads, handlers, Repr) == fields;
      Repr := Repr + created;
      if ok {
        assert workloads.value[0] in Members(workloads);
      }
    }

    /** The serializer reading `Handlers` once `Name` is memoised: the getter, then every handler in turn. */
    method SerializeHandlersProperty(entryAssemblyName: Option<string>) returns (ok: bool)
      requires Valid() && name.Some?
      modifies this`name, this`handlers, Members(handlers)
      ensures Valid()
      ensures name == old(name)
      ensures ok <==> old(HandlersSerializable(handlers, name.value, entryAssemblyName))
      ensures old(handlers).Some? ==> handlers == old(handlers)
      ensures old(handlers).None? && handlers.Some? ==> |handlers.value| == 1 && fresh(handlers.value[0])
      ensures forall h :: h in Members(old(handlers)) ==>
        && h.script == old(h.script)
        && (h.Memo() == old(h.Memo()) || h.Memo() == SerializedHandler(old(h.Memo()), h.script, entryAssemblyName))
      ensures ok ==> forall h :: h in Members(old(handlers)) ==>
        h.Memo() == SerializedHandler(old(h.Memo()), h.script, entryAssemblyName)
      ensures ok ==> handlers.Some? && forall h :: h in Members(handlers) ==> h.name.Some? && h.strategy.Some?
    {
      var hs := GetHandlers(entryAssemblyName);
      if hs.Failure? {
        return false;
      }
      ok := SerializeHandlers(hs.value, entryAssemblyName);
    }

    /** The first intercept of the first workload, the one `Run` and `Leave` act on. */
    ghost function FirstIntercept(): Option<WorkloadIntercept>
      reads this`workloads, Members(workloads)
    {
      if workloads.Some? && |workloads.value| > 0 && workloads.value[0].intercepts.Some?
         && |workloads.value[0].intercepts.value| > 0
      then Some(workloads.value[0].intercepts.value[0])
      else None
    }

    /**
     * `CreateInterceptSpecificationFile`: derive the directory and path from `Name`, create the
     * directory when missing, and write the rendered specification.
     */
    method CreateSpecificationFile(entryAssemblyName: Option<string>, tmp: string, currentContext: string,
                                   configNamespace: Option<string>, userName: string, draws: seq<int>,
                                   inUse: set<int>, yaml: string, fs: FileSystem)
      returns (o: Outcome<Fault>, text: string)
      requires Valid()
      requires forall i :: 0 <= i < |draws| ==> RandomPortLow <= draws[i] < RandomPortHigh
      requires FirstFree(draws, inUse).Some?
      modifies this, fs, ConnectionObjects(), Members(workloads), Repr, Members(handlers)
      ensures Valid()
      ensures o.Pass? <==> MemoName(old(name), entryAssemblyName).Success?
      ensures text == if old(Serializable(entryAssemblyName)) then yaml else SpecificationTypeName
      ensures o.Fail? ==> o.error == MemoName(old(name), entryAssemblyName).error && unchanged(fs) && unchanged(this)
      ensures o.Pass? ==>
        (var n := MemoName(old(name), entryAssemblyName).value;
         && name == Some(n)
         && temporaryDirectory == Some(SpecificationDirectory(tmp, n))
         && specificationPath == Some(SpecificationPath(tmp, n))
         && fs.directories == old(fs.directories) + {SpecificationDirectory(tmp, n)}
         && fs.files == old(fs.files)[SpecificationPath(tmp, n) := text])
      ensures old(Serializable(entryAssemblyName)) ==> Locatable(entryAssemblyName)
      ensures old(workloads).Some? ==> workloads == old(workloads)
      ensures old(workloads).None? && workloads.Some? ==> |workloads.value| == 1 && fresh(workloads.value[0])
      ensures old(Repr) <= Repr && fresh(Repr - old(Repr))
    {
      var n := MemoName(name, entryAssemblyName);
      if n.Failure? {
        return Fail(n.error), SpecificationTypeName;
      }
      // Reading `Name` memoises it; `Render` reads it first and stores that same memo. The source
      // sets both paths and creates the directory before serialising; these steps touch disjoint
      // state and commute with it, so they are done after the text is rendered and written.
      var directory := SpecificationDirectory(tmp, n.value);
      var path := SpecificationPath(tmp, n.value);
      text := WriteRendered(entryAssemblyName, currentContext, configNamespace, userName, draws, inUse, yaml,
                            fs, directory, path);
      temporaryDirectory, specificationPath := Some(directory), Some(path);
      return Pass, text;
    }

    /** `File.WriteAllTextAsync(path, ToString())`, the directory being created first when missing. */
    method WriteRendered(entryAssemblyName: Option<string>, currentContext: string, configNamespace: Option<string>,
                         userName: string, draws: seq<int>, inUse: set<int>, yaml: string,
                         fs: FileSystem, directory: string, path: string)
      returns (text: string)
      requires Valid()
      requires forall i :: 0 <= i < |draws| ==> RandomPortLow <= draws[i] < RandomPortHigh
      requires FirstFree(draws, inUse).Some?
      modifies this`name, this`connection, this`workloads, this`handlers, this`Repr, ConnectionObjects(), Members(workloads),
               Repr, Members(handlers), fs
      ensures Valid()
      ensures text == if old(Serializable(entryAssemblyName)) then yaml else SpecificationTypeName
      ensures name == MemoUpdated(old(name), entryAssemblyName)
      ensures fs.directories == old(fs.directories) + {directory}
      ensures fs.files == old(fs.files)[path := text]
      ensures old(Serializable(entryAssemblyName)) ==> Locatable(entryAssemblyName)
      ensures old(workloads).Some? ==> workloads == old(workloads)
      ensures old(workloads).None? && workloads.Some? ==> |workloads.value| == 1 && fresh(workloads.value[0])
      ensures old(Repr) <= Repr && fresh(Repr - old(Repr))
    {
      var serialised;
      text, serialised := Render(entryAssemblyName, currentContext, configNamespace, userName, draws, inUse, yaml);
      WriteSpecification(fs, directory, path, text);
    }

    /** `Workloads.First().Intercepts.First()`: both lists are non-empty, so only a throwing getter fails. */
    method ReadFirstIntercept(entryAssemblyName: Option<string>) returns (r: Result<WorkloadIntercept, Fault>)
      requires Valid()
      modifies this`name, this`workloads, this`Repr, Members(workloads)
      ensures Valid()
      ensures r.Success? <==> old(FirstReadable(entryAssemblyName))
      ensures FirstReadable(entryAssemblyName) == old(FirstReadable(entryAssemblyName))
      ensures MemoName(name, entryAssemblyName) == MemoName(old(name), entryAssemblyName)
      ensures r.Success? ==> FirstIntercept() == Some(r.value)
      ensures r.Success? ==> r.value in Repr
      ensures old(Repr) <= Repr && fresh(Repr - old(Repr))
    {
      var ws := GetWorkloads(entryAssemblyName);
      if ws.Failure? {
        return Failure(ws.error);
      }
      var workload := ws.value[0];
      ghost var stored := workload.intercepts;
      assert stored.Some? ==> workload in Members(old(workloads));
      if old(workloads).None? {
        WorkloadNameFitsIntercept(MemoName(old(name), entryAssemblyName).value);
      }
      var intercepts := workload.GetIntercepts();
      if intercepts.Failure? {
        return Failure(intercepts.error);
      }
      var intercept := intercepts.value[0];
      Repr := Repr + {intercept};
      assert forall i :: i in Members(workload.intercepts) ==> i in Repr;
      return Success(intercept);
    }

    /**
     * The reads at the head of `Run`'s `try` block: the first workload, its first intercept,
     * and the first handler. All three lists are non-empty, so only a throwing getter fails.
     */
    method Locate(entryAssemblyName: Option<string>) returns (r: Result<(WorkloadIntercept, Handler), Fault>)
      requires Valid()
      modifies this`name, this`workloads, this`handlers, this`Repr, Members(workloads)
      ensures Valid()
      ensures r.Success? <==> old(Locatable(entryAssemblyName))
      ensures Locatable(entryAssemblyName) == old(Locatable(entryAssemblyName))
      ensures r.Success? ==> FirstIntercept() == Some(r.value.0) && handlers.Some? && handlers.value[0] == r.value.1
      ensures r.Success? ==> r.value.0 in Repr
      ensures old(Repr) <= Repr && fresh(Repr - old(Repr))
    {
      var intercept := ReadFirstIntercept(entryAssemblyName);
      if intercept.Failure? {
        return Failure(intercept.error);
      }
      var hs := GetHandlers(entryAssemblyName);
      if hs.Failure? {
        return Failure(hs.error);
      }
      return Success((intercept.value, hs.value[0]));
    }

    /**
     * What the `try` block of `Run` leaves behind, run with command line `args` from runner
     * state `started0`/`script0`, files `files0` and variables `vars0`: when the intercept and
     * handler cannot be located it rethrows with nothing started, changed or set; otherwise the
     * handler ran and Kestrel was bound as `HandledThenBound` describes. At most `args` was
     * started, and a completed run has both Kestrel variables naming the intercept's local port.
     */
    ghost predicate TryOutcome(entryAssemblyName: Option<string>, args: seq<string>, checks: seq<bool>,
                               attempts: seq<OpenAttempt>, parse: string -> Parsed<OutputLoader.InterceptOutput>,
                               started0: seq<seq<string>>, script0: seq<RunOutcome>, files0: map<string, string>,
                               vars0: map<string, string>, end: Completion, started: seq<seq<string>>,
                               files: map<string, string>, vars: map<string, string>)
      requires Valid()
      reads this`name, this`workloads, this`handlers, this`Repr, Members(workloads), Repr, Members(handlers)
    {
      && (!Locatable(entryAssemblyName) ==>
            end.Raised? && started == started0 && files == files0 && vars == vars0)
      && (Locatable(entryAssemblyName) ==>
            && FirstIntercept().Some? && handlers.Some? && |handlers.value| > 0
            && HandledThenBound(handlers.value[0].strategy, args, checks, attempts, parse, started0, script0, files0,
                                vars0, FirstIntercept().value.localPort, end, started, files, vars))
      && (started == started0 || started == started0 + [args])
      && (end == Completed ==>
            && FirstIntercept().Some? && FirstIntercept().value.localPort.Some?
            && Lookup(vars, DotnetUrls) == Some(KestrelUrl(FirstIntercept().value.localPort.value))
            && Lookup(vars, AspNetCoreUrls) == Some(KestrelUrl(FirstIntercept().value.localPort.value)))
    }

    /**
     * The `try` block of `Run`: locate the intercept and handler, run the handler, then point
     * Kestrel at the intercept's local port. Every failure is rethrown.
     */
    method Start(entryAssemblyName: Option<string>, args: seq<string>, runner: CommandRunner, fs: FileSystem,
                 env: Environment, checks: seq<bool>, attempts: seq<OpenAttempt>,
                 parse: string -> Parsed<OutputLoader.InterceptOutput>, draws: seq<int>, inUse: set<int>)
      returns (end: Completion)
      requires Valid()
      requires forall i :: 0 <= i < |draws| ==> RandomPortLow <= draws[i] < RandomPortHigh
      modifies this`name, this`workloads, this`handlers, this`Repr, Members(workloads), Repr, runner, fs`files, env
      ensures Valid()
      ensures Locatable(entryAssemblyName) == old(Locatable(entryAssemblyName))
      ensures TryOutcome(entryAssemblyName, args, checks, attempts, parse, old(runner.started), old(runner.script),
                         old(fs.files), old(env.vars), end, runner.started, fs.files, env.vars)
      ensures specificationPath == old(specificationPath) && fs.directories == old(fs.directories)
    {
      var located := Locate(entryAssemblyName);
      if located.Failure? {
        return Raised(located.error);
      }
      var (intercept, handler) := located.value;
      ghost var fields := (name, workloads, handlers, Repr, specificationPath);
      end := StartLocated(intercept, handler, args, runner, fs, env, checks, attempts, parse, draws, inUse);
      assert (name, workloads, handlers, Repr, specificationPath) == fields;
    }

    /** `Run`: write the specification file (outside the `try`), then run `intercept run <path>`. */
    method Run(entryAssemblyName: Option<string>, tmp: string, currentContext: string, configNamespace: Option<string>,
               userName: string, yaml: string, runner: CommandRunner, fs: FileSystem, env: Environment,
               checks: seq<bool>, attempts: seq<OpenAttempt>, parse: string -> Parsed<OutputLoader.InterceptOutput>,
               draws: seq<int>, inUse: set<int>)
      returns (end: Completion)
      requires Valid()
      requires forall i :: 0 <= i < |draws| ==> RandomPortLow <= draws[i] < RandomPortHigh
      requires FirstFree(draws, inUse).Some?
      modifies this, fs, runner, env, ConnectionObjects(), Members(workloads), Repr, Members(handlers)
      ensures Valid()
      ensures MemoName(old(name), entryAssemblyName).Failure? ==>
        && end == Raised(MemoName(old(name), entryAssemblyName).error)
        && runner.started == old(runner.started) && env.vars == old(env.vars) && unchanged(fs)
      ensures MemoName(old(name), entryAssemblyName).Success? ==>
        (var n := MemoName(old(name), entryAssemblyName).value;
         && specificationPath == Some(SpecificationPath(tmp, n))
         && fs.directories == old(fs.directories) + {SpecificationDirectory(tmp, n)}
         && (var path := specificationPath.value;
             var written := old(fs.files)[path := if old(Serializable(entryAssemblyName)) then yaml else SpecificationTypeName];
             TryOutcome(entryAssemblyName, RunCommand(path), checks, attempts, parse, old(runner.started),
                        old(runner.script), written, old(env.vars), end, runner.started, fs.files, env.vars)))
      ensures old(Serializable(entryAssemblyName)) ==> Locatable(entryAssemblyName)
    {
      var created, text := CreateSpecificationFile(entryAssemblyName, tmp, currentContext, configNamespace, userName,
                                                   draws, inUse, yaml, fs);
      if created.Fail? {
        return Raised(created.error);
      }
      var path := specificationPath.value;
      end := Start(entryAssemblyName, RunCommand(path), runner, fs, env, checks, attempts, parse, draws, inUse);
    }

    /** `DestroyAssets`: delete the temporary directory tree if it was set and exists. */
    method DestroyAssets(fs: FileSystem)
      modifies fs
      ensures Destroyed(temporaryDirectory, old(fs.files), old(fs.directories), fs.files, fs.directories)
    {
      if temporaryDirectory.Some? && temporaryDirectory.value in fs.directories {
        fs.DeleteTree(temporaryDirectory.value);
      }
    }

    /**
     * `Leave`: the workload, intercept and intercept-name reads sit before the `try`, so their
     * failures propagate and nothing is cleaned up. Otherwise `leave <intercept name>` runs, its
     * failures are swallowed, and the temporary directory is always destroyed.
     */
    method Leave(entryAssemblyName: Option<string>, runner: CommandRunner, fs: FileSystem) returns (o: Outcome<Fault>)
      requires Valid()
      modifies this`name, this`workloads, this`Repr, Members(workloads), Repr, runner, fs
      ensures Valid()
      ensures o.Fail? ==> runner.started == old(runner.started) && fs.files == old(fs.files) && fs.directories == old(fs.directories)
      ensures o.Pass? ==>
        && FirstIntercept().Some? && FirstIntercept().value.name.Some?
        && runner.started == old(runner.started) + [LeaveCommand(FirstIntercept().value.name.value)]
        && Destroyed(temporaryDirectory, old(fs.files), old(fs.directories), fs.files, fs.directories)
    {
      var intercept := ReadFirstIntercept(entryAssemblyName);
      if intercept.Failure? {
        return Fail(intercept.error);
      }
      var target := intercept.value.GetName(entryAssemblyName);
      if target.Failure? {
        return Fail(target.error);
      }
      var outcome := runner.Run(LeaveCommand(target.value));
      DestroyAssets(fs);
      return Pass;
    }
  }
}
