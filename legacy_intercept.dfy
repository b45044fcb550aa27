/**
 * The first intercept object, `Telepresence.NET.Intercept`: a name, a connection, workloads
 * and handlers behind validating `init` accessors and `??=` getters, and `Start` as connect,
 * leave the previous intercept, write the specification file, then hand the
 * `intercept run` command to the first handler and point Kestrel at the first intercept's
 * local port.
 *
 * The entity classes it reads (`Models.Intercept.Connection`, `Workload`,
 * `WorkloadIntercept` and `Handler`) are not part of this model: they are values holding the
 * members this class reads, and their parameterless constructors are a `Factory` fixed at
 * construction. The first handler's `Handle` is a function parameter from the handler and the
 * command line to its outcome.
 */
module LegacyIntercept {
  import opened Wrappers
  import opened Text
  import opened Constants
  import opened Patterns
  import opened Host
  import opened ProcessEnvironment
  import Defaults
  import IS = InterceptSpecifications

  /** The two members of a connection that `Connect` reads. */
  datatype Connection = Connection(context: Option<string>, namespace: Option<string>)

  /** The two members of a workload intercept that `Leave` and `Start` read. */
  datatype WorkloadIntercept = WorkloadIntercept(name: Option<string>, localPort: Option<int>)

  datatype Workload = Workload(name: Option<string>, intercepts: Option<seq<WorkloadIntercept>>)

  /** A handler's name, and whether each of `Docker`, `Script` and `External` reads non-null. */
  datatype Handler = Handler(name: Option<string>, docker: bool, script: bool, external: bool)

  /** `new Connection()`, and `new() { Name = n }` for a workload and for a handler. */
  datatype Factory = Factory(connection: Connection, workload: Option<string> -> Workload,
                             handler: Option<string> -> Handler)

  /** `object.ToString()` of this class: what is written when serialisation throws. */
  const TypeName := "Telepresence.NET.Intercept"
  const MaxWorkloads := 32
  const MaxHandlers := 64

  // ----- the validating accessors -----

  /** The `Name` init: not blank, and `^[a-zA-Z][a-zA-Z0-9_-]*$` with no placeholder escape. */
  function NameCheck(value: Option<string>): (o: Outcome<Fault>)
    ensures o.Pass? <==> !IsNullOrBlank(value) && IsIdentifier(value.value)
    ensures IsNullOrBlank(value) ==> o == Fail(ArgumentNull("Name"))
    ensures !IsNullOrBlank(value) && !IsIdentifier(value.value) ==> o == Fail(InvalidOperation(AlphaNumericWithHyphens))
  {
    if IsNullOrBlank(value) then Fail(ArgumentNull("Name"))
    else if !IsIdentifier(value.value) then Fail(InvalidOperation(AlphaNumericWithHyphens))
    else Pass
  }

  /** An accepted name never holds a `{{` placeholder, which the later intercept lets through. */
  lemma AcceptedNameHasNoPlaceholder(value: string)
    requires NameCheck(Some(value)).Pass?
    ensures !HasPlaceholder(value)
  {
    if IdentifierBody(value) {
      IdentifierHasNoPlaceholder(value);
    } else {
      var body := Chomp(value);
      assert IdentifierBody(body);
      forall i | 0 <= i < |value|
        ensures value[i] != '{'
      {
        if i < |body| {
          assert value[i] == body[i];
          assert i == 0 || IsIdentifierChar(body[i]);
        }
      }
      NoBraceNoPlaceholder(value);
    }
  }

  /** Upper case and underscores are allowed, a leading digit is not, and a final newline slips through `$`. */
  lemma NameExamples()
    ensures NameCheck(Some("Api_1")).Pass?
    ensures NameCheck(Some("1api")) == Fail(InvalidOperation(AlphaNumericWithHyphens))
    ensures NameCheck(Some("api\n")).Pass?
    ensures NameCheck(Some(" ")) == Fail(ArgumentNull("Name"))
    ensures NameCheck(None) == Fail(ArgumentNull("Name"))
  {
    assert !IsBlank("Api_1") by { assert !IsWhiteSpace("Api_1"[0]); }
    assert IdentifierBody("Api_1");
    assert !IsBlank("1api") by { assert !IsWhiteSpace("1api"[0]); }
    assert !IdentifierBody("1api") && Chomp("1api") == "1ap";
    assert !IsBlank("api\n") by { assert !IsWhiteSpace("api\n"[0]); }
    assert Chomp("api\n") == "api" && IdentifierBody("api");
    assert IsBlank(" ") by { assert IsWhiteSpace(" "[0]); }
  }

  /** The `Workloads` init: a non-null list of 1 to 32 workloads. */
  function WorkloadsCheck(value: Option<seq<Workload>>): (o: Outcome<Fault>)
    ensures o.Pass? <==> value.Some? && 1 <= |value.value| <= MaxWorkloads
    ensures value.None? ==> o == Fail(ArgumentNull("Workloads"))
    ensures value.Some? && !(1 <= |value.value| <= MaxWorkloads) ==> o == Fail(InvalidOperation(InvalidNumberOfWorkloadsDefined))
  {
    if value.None? then Fail(ArgumentNull("Workloads"))
    else if |value.value| == 0 || |value.value| > MaxWorkloads then Fail(InvalidOperation(InvalidNumberOfWorkloadsDefined))
    else Pass
  }

  /** `isDocker ^ isScript ^ isExternal` */
  predicate Exclusive(h: Handler) { (h.docker != h.script) != h.external }

  /** The `Handlers` init: a non-null list of 1 to 64 handlers, each passing the parity check. */
  function HandlersCheck(value: Option<seq<Handler>>): (o: Outcome<Fault>)
    ensures o.Pass? <==> value.Some? && 1 <= |value.value| <= MaxHandlers && forall h <- value.value :: Exclusive(h)
    ensures value.None? ==> o == Fail(ArgumentNull("Handlers"))
    ensures value.Some? && !(1 <= |value.value| <= MaxHandlers) ==> o == Fail(InvalidOperation(InvalidNumberOfHandlersDefined))
    ensures value.Some? && 1 <= |value.value| <= MaxHandlers && o.Fail? ==> o == Fail(InvalidOperation(MutuallyExclusiveHandlers))
  {
    if value.None? then Fail(ArgumentNull("Handlers"))
    else if |value.value| == 0 || |value.value| > MaxHandlers then Fail(InvalidOperation(InvalidNumberOfHandlersDefined))
    else if forall h <- value.value :: Exclusive(h) then Pass
    else Fail(InvalidOperation(MutuallyExclusiveHandlers))
  }

  /**
   * The check is a parity, not the "exactly one" its message asks for: a handler with all
   * three strategies passes, one with two of them does not, and one with none does not.
   */
  lemma ParityAdmitsAllThree()
    ensures HandlersCheck(Some([Handler(None, true, true, true)])).Pass?
    ensures HandlersCheck(Some([Handler(None, true, true, false)])) == Fail(InvalidOperation(MutuallyExclusiveHandlers))
    ensures HandlersCheck(Some([Handler(None, false, false, false)])) == Fail(InvalidOperation(MutuallyExclusiveHandlers))
  {
    assert !Exclusive([Handler(None, true, true, false)][0]);
    assert !Exclusive([Handler(None, false, false, false)][0]);
  }

  // ----- what the getters read -----

  /** The `Name` getter: the stored name, else `Defaults.Name`. */
  function NameOf(memo: Option<string>, entryAssemblyName: Option<string>): (r: Result<string, Fault>)
    ensures memo.Some? ==> r == Success(memo.value)
    ensures memo.None? ==> r == Defaults.Name(entryAssemblyName)
  {
    if memo.Some? then Success(memo.value) else Defaults.Name(entryAssemblyName)
  }

  /** The name field after one read of the getter: unchanged if set, else the default when there is one. */
  function Memoised(memo: Option<string>, entryAssemblyName: Option<string>): (r: Option<string>)
    ensures NameOf(memo, entryAssemblyName).Success? ==> r == Some(NameOf(memo, entryAssemblyName).value)
    ensures NameOf(memo, entryAssemblyName).Failure? ==> r == memo
  {
    if memo.Some? then memo
    else if Defaults.Name(entryAssemblyName).Success? then Some(Defaults.Name(entryAssemblyName).value)
    else None
  }

  /** Reading the name can fail only when nothing is stored and there is no entry assembly. */
  lemma NameFailsOnlyWithoutEntry(memo: Option<string>, entryAssemblyName: Option<string>)
    ensures NameOf(memo, entryAssemblyName).Failure? <==> memo.None? && entryAssemblyName.None?
    ensures NameOf(memo, entryAssemblyName).Failure? ==>
      NameOf(memo, entryAssemblyName).error == TypeInitialization(CantDetermineName)
  {
  }

  /** A second read returns what the first returned. */
  lemma MemoisedNameStable(memo: Option<string>, entryAssemblyName: Option<string>)
    ensures NameOf(Memoised(memo, entryAssemblyName), entryAssemblyName) == NameOf(memo, entryAssemblyName)
  {
  }

  /** `Workloads.FirstOrDefault()?.Intercepts?.FirstOrDefault()` over lists without null elements. */
  function FirstIntercept(workloads: seq<Workload>): (r: Option<WorkloadIntercept>)
    ensures r.Some? <==> |workloads| > 0 && workloads[0].intercepts.Some? && |workloads[0].intercepts.value| > 0
    ensures r.Some? ==> r.value == workloads[0].intercepts.value[0]
  {
    if |workloads| == 0 || workloads[0].intercepts.None? || |workloads[0].intercepts.value| == 0 then None
    else Some(workloads[0].intercepts.value[0])
  }

  /** `intercept?.Name ?? Name`: the first intercept's own name when it has one, else the name getter. */
  function LeaveTarget(intercept: Option<WorkloadIntercept>, memo: Option<string>, entryAssemblyName: Option<string>)
    : (r: Result<string, Fault>)
    ensures intercept.Some? && intercept.value.name.Some? ==> r == Success(intercept.value.name.value)
    ensures intercept.None? || intercept.value.name.None? ==> r == NameOf(memo, entryAssemblyName)
  {
    if intercept.Some? && intercept.value.name.Some? then Success(intercept.value.name.value)
    else NameOf(memo, entryAssemblyName)
  }

  /** The `connect` command line: `--context` and `--namespace` each added only when not blank. */
  function ConnectCommand(c: Connection): (r: seq<string>)
    ensures |r| == 1 + (if IsNullOrBlank(c.context) then 0 else 2) + (if IsNullOrBlank(c.namespace) then 0 else 2)
    ensures r[0] == "connect"
    ensures !IsNullOrBlank(c.context) ==> r[1..3] == ["--context", c.context.value]
    ensures !IsNullOrBlank(c.namespace) ==> r[|r| - 2..] == ["--namespace", c.namespace.value]
  {
    ["connect"]
      + (if IsNullOrBlank(c.context) then [] else ["--context", c.context.value])
      + (if IsNullOrBlank(c.namespace) then [] else ["--namespace", c.namespace.value])
  }

  /** `$"http://+:{intercept.LocalPort}"`: a null port formats as nothing. */
  function PortUrl(localPort: Option<int>): (r: string)
    ensures StartsWith(r, IS.KestrelPrefix)
    ensures localPort.Some? ==> r == IS.KestrelUrl(localPort.value)
    ensures localPort.None? ==> r == IS.KestrelPrefix
  {
    if localPort.Some? then IS.KestrelUrl(localPort.value) else IS.KestrelPrefix
  }

  class Intercept {
    const factory: Factory
    var name: Option<string>
    var connection: Option<Connection>
    var workloads: Option<seq<Workload>>
    var handlers: Option<seq<Handler>>
    var isConnected: bool
    var temporaryDirectory: Option<string>
    var specificationPath: Option<string>

    /** `Intercept()`: nothing set, not connected. */
    constructor (factory0: Factory)
      ensures factory == factory0
      ensures name.None? && connection.None? && workloads.None? && handlers.None?
      ensures !isConnected && temporaryDirectory.None? && specificationPath.None?
    {
      factory := factory0;
      name, connection, workloads, handlers := None, None, None, None;
      isConnected := false;
      temporaryDirectory, specificationPath := None, None;
    }

    /** `Intercept(string name)`: a fresh object with the `Name` init applied; a refused name throws out of the constructor. */
    static method Named(factory0: Factory, value: string) returns (r: Result<Intercept, Fault>)
      ensures r.Failure? <==> NameCheck(Some(value)).Fail?
      ensures r.Failure? ==> r.error == NameCheck(Some(value)).error
      ensures r.Success? ==>
        && fresh(r.value) && r.value.factory == factory0 && r.value.name == Some(value)
        && r.value.connection.None? && r.value.workloads.None? && r.value.handlers.None?
        && !r.value.isConnected && r.value.temporaryDirectory.None? && r.value.specificationPath.None?
    {
      var i := new Intercept(factory0);
      var o := i.InitName(Some(value));
      if o.Fail? {
        return Failure(o.error);
      }
      return Success(i);
    }

    method InitName(value: Option<string>) returns (o: Outcome<Fault>)
      modifies this`name
      ensures o == NameCheck(value)
      ensures name == if o.Pass? then value else old(name)
    {
      o := NameCheck(value);
      if o.Pass? {
        name := value;
      }
    }

    /** `_name ??= Defaults.Name`: a failing default throws and stores nothing. */
    method GetName(entryAssemblyName: Option<string>) returns (r: Result<string, Fault>)
      modifies this`name
      ensures r == NameOf(old(name), entryAssemblyName)
      ensures name == Memoised(old(name), entryAssemblyName)
    {
      if name.Some? {
        return Success(name.value);
      }
      r := Defaults.Name(entryAssemblyName);
      if r.Success? {
        name := Some(r.value);
      }
    }

    method InitConnection(value: Option<Connection>) returns (o: Outcome<Fault>)
      modifies this`connection
      ensures o.Fail? <==> value.None?
      ensures o.Fail? ==> o.error == ArgumentNull("Connection") && connection == old(connection)
      ensures o.Pass? ==> connection == value
    {
      if value.None? {
        return Fail(ArgumentNull("Connection"));
      }
      connection := value;
      o := Pass;
    }

    /** `_connection ??= new Connection()`: never null once read. */
    method GetConnection() returns (c: Connection)
      modifies this`connection
      ensures c == old(connection).GetOr(factory.connection)
      ensures connection == Some(c)
    {
      if connection.None? {
        connection := Some(factory.connection);
      }
      c := connection.value;
    }

    method InitWorkloads(value: Option<seq<Workload>>) returns (o: Outcome<Fault>)
      modifies this`workloads
      ensures o == WorkloadsCheck(value)
      ensures workloads == if o.Pass? then value else old(workloads)
    {
      o := WorkloadsCheck(value);
      if o.Pass? {
        workloads := value;
      }
    }

    /** `_workloads ??= [new() { Name = _name }]`: the default reads the name field, not the getter. */
    method GetWorkloads() returns (ws: seq<Workload>)
      modifies this`workloads
      ensures ws == old(workloads).GetOr([factory.workload(name)])
      ensures workloads == Some(ws)
    {
      if workloads.None? {
        workloads := Some([factory.workload(name)]);
      }
      ws := workloads.value;
    }

    /** The `Handlers` init: the count, then the parity check handler by handler; the first failure throws. */
    method InitHandlers(value: Option<seq<Handler>>) returns (o: Outcome<Fault>)
      modifies this`handlers
      ensures o == HandlersCheck(value)
      ensures handlers == if o.Pass? then value else old(handlers)
    {
      if value.None? {
        return Fail(ArgumentNull("Handlers"));
      }
      var hs := value.value;
      if |hs| == 0 || |hs| > MaxHandlers {
        return Fail(InvalidOperation(InvalidNumberOfHandlersDefined));
      }
      var i := 0;
      while i < |hs|
        invariant 0 <= i <= |hs|
        invariant forall j :: 0 <= j < i ==> Exclusive(hs[j])
      {
        if !Exclusive(hs[i]) {
          return Fail(InvalidOperation(MutuallyExclusiveHandlers));
        }
        i := i + 1;
      }
      handlers := value;
      o := Pass;
    }

    /** `_handlers ??= [new() { Name = _name }]` */
    method GetHandlers() returns (hs: seq<Handler>)
      modifies this`handlers
      ensures hs == old(handlers).GetOr([factory.handler(name)])
      ensures handlers == Some(hs)
    {
      if handlers.None? {
        handlers := Some([factory.handler(name)]);
      }
      hs := handlers.value;
    }

    /**
     * `Connect`: nothing once connected; otherwise run `connect` with the connection's flags
     * and count any exit as connected, whatever its code. A process that cannot be started
     * or awaited is logged and swallowed.
     */
    method Connect(runner: CommandRunner)
      modifies this`isConnected, this`connection, runner
      ensures old(isConnected) ==> isConnected && connection == old(connection) && unchanged(runner)
      ensures !old(isConnected) ==>
        && connection == Some(old(connection).GetOr(factory.connection))
        && runner.started == old(runner.started) + [ConnectCommand(connection.value)]
        && isConnected == NextOutcome(old(runner.script)).Exited?
    {
      if isConnected {
        return;
      }
      var c := GetConnection();
      var outcome := runner.Run(ConnectCommand(c));
      if outcome.Exited? {
        isConnected := true;
      }
    }

    /**
     * `Leave`: the target is read for the log line before the `try`, so a failing name getter
     * escapes; the `leave` process itself may fail and is swallowed.
     */
    method Leave(entryAssemblyName: Option<string>, runner: CommandRunner) returns (o: Outcome<Fault>)
      modifies this`workloads, this`name, runner
      ensures workloads == Some(old(workloads).GetOr([factory.workload(old(name))]))
      ensures var target := LeaveTarget(FirstIntercept(workloads.value), old(name), entryAssemblyName);
        && (o.Fail? <==> target.Failure?)
        && (o.Fail? ==> o.error == target.error && runner.started == old(runner.started) && name == old(name))
        && (o.Pass? ==> runner.started == old(runner.started) + [IS.LeaveCommand(target.value)])
      ensures name == if FirstIntercept(workloads.value).Some? && FirstIntercept(workloads.value).value.name.Some?
                      then old(name) else Memoised(old(name), entryAssemblyName)
    {
      var ws := GetWorkloads();
      var intercept := FirstIntercept(ws);
      var target: string;
      if intercept.Some? && intercept.value.name.Some? {
        target := intercept.value.name.value;
      } else {
        var n := GetName(entryAssemblyName);
        if n.Failure? {
          return Fail(n.error);
        }
        target := n.value;
      }
      var _ := runner.Run(IS.LeaveCommand(target));
      o := Pass;
    }

    /**
     * `ToString`: the serializer reads every public property, so the name and the three
     * lists are memoised; `yaml` is its text, `None` when it throws.
     */
    method Render(entryAssemblyName: Option<string>, yaml: Option<string>) returns (text: string)
      modifies this`name, this`connection, this`workloads, this`handlers
      ensures name == Memoised(old(name), entryAssemblyName)
      ensures NameOf(old(name), entryAssemblyName).Failure? ==>
        text == TypeName && connection == old(connection) && workloads == old(workloads) && handlers == old(handlers)
      ensures NameOf(old(name), entryAssemblyName).Success? ==>
        && text == yaml.GetOr(TypeName)
        && connection == Some(old(connection).GetOr(factory.connection))
        && workloads == Some(old(workloads).GetOr([factory.workload(name)]))
        && handlers == Some(old(handlers).GetOr([factory.handler(name)]))
    {
      var n := GetName(entryAssemblyName);
      if n.Failure? {
        return TypeName;
      }
      var _ := GetConnection();
      var _ := GetWorkloads();
      var _ := GetHandlers();
      text := yaml.GetOr(TypeName);
    }

    /**
     * `CreateInterceptSpecification`: `<tmp>/telepresence/<Name>` and the YAML file inside
     * it. The first read of `Name` may throw, before anything is touched.
     */
    method CreateInterceptSpecification(entryAssemblyName: Option<string>, tmp: string, yaml: Option<string>,
                                        fs: FileSystem) returns (o: Outcome<Fault>)
      modifies this`name, this`connection, this`workloads, this`handlers, this`temporaryDirectory,
               this`specificationPath, fs
      ensures o.Pass? <==> NameOf(old(name), entryAssemblyName).Success?
      ensures o.Fail? ==>
        && o.error == NameOf(old(name), entryAssemblyName).error
        && unchanged(fs) && name == old(name) && connection == old(connection) && workloads == old(workloads)
        && handlers == old(handlers) && temporaryDirectory == old(temporaryDirectory)
        && specificationPath == old(specificationPath)
      ensures o.Pass? ==>
        var n := NameOf(old(name), entryAssemblyName).value;
        && name == Some(n)
        && temporaryDirectory == Some(IS.SpecificationDirectory(tmp, n))
        && specificationPath == Some(IS.SpecificationPath(tmp, n))
        && fs.directories == old(fs.directories) + {IS.SpecificationDirectory(tmp, n)}
        && fs.files == old(fs.files)[IS.SpecificationPath(tmp, n) := yaml.GetOr(TypeName)]
        && connection == Some(old(connection).GetOr(factory.connection))
        && workloads == Some(old(workloads).GetOr([factory.workload(Some(n))]))
        && handlers == Some(old(handlers).GetOr([factory.handler(Some(n))]))
    {
      var n := GetName(entryAssemblyName);
      if n.Failure? {
        return Fail(n.error);
      }
      var directory := IS.SpecificationDirectory(tmp, n.value);
      var path := IS.SpecificationPath(tmp, n.value);
      temporaryDirectory := Some(directory);
      specificationPath := Some(path);
      if directory !in fs.directories {
        fs.CreateDirectory(directory);
      }
      var text := Render(entryAssemblyName, yaml);
      fs.WriteAllText(path, text);
      o := Pass;
    }

    /**
     * The `try` of `Start`: the first workload, its first intercept and the first handler
     * must exist; the handler runs `intercept run <path>`, then both Kestrel variables are set.
     */
    method RunFirstHandler(path: string, handle: (Handler, seq<string>) -> Outcome<Fault>, env: Environment)
      returns (o: Outcome<Fault>)
      modifies this`workloads, this`handlers, env
      ensures workloads == Some(old(workloads).GetOr([factory.workload(name)]))
      ensures handlers == old(handlers) || handlers == Some(old(handlers).GetOr([factory.handler(name)]))
      ensures o.Fail? ==> env.vars == old(env.vars)
      ensures var ws := workloads.value;
              var hs := old(handlers).GetOr([factory.handler(name)]);
        && (|ws| == 0 ==> o == Fail(InvalidOperation(NoWorkloadFound)))
        && (|ws| > 0 && FirstIntercept(ws).None? ==> o == Fail(InvalidOperation(NoWorkloadInterceptFound)))
        && (FirstIntercept(ws).Some? && |hs| == 0 ==> o == Fail(InvalidOperation(NoHandlerFound)))
        && (FirstIntercept(ws).Some? && |hs| > 0 ==>
              && (handle(hs[0], IS.RunCommand(path)).Fail? ==> o == handle(hs[0], IS.RunCommand(path)))
              && (handle(hs[0], IS.RunCommand(path)).Pass? ==>
                    && o == Pass
                    && env.vars == old(env.vars)[IS.DotnetUrls := PortUrl(FirstIntercept(ws).value.localPort)]
                                                [IS.AspNetCoreUrls := PortUrl(FirstIntercept(ws).value.localPort)]))
    {
      var command := IS.RunCommand(path);
      var ws := GetWorkloads();
      if |ws| == 0 {
        return Fail(InvalidOperation(NoWorkloadFound));
      }
      var intercept := FirstIntercept(ws);
      if intercept.None? {
        return Fail(InvalidOperation(NoWorkloadInterceptFound));
      }
      var hs := GetHandlers();
      if |hs| == 0 {
        return Fail(InvalidOperation(NoHandlerFound));
      }
      o := handle(hs[0], command);
      if o.Fail? {
        return;
      }
      var url := PortUrl(intercept.value.localPort);
      env.Set(IS.DotnetUrls, url);
      env.Set(IS.AspNetCoreUrls, url);
    }

    /** The steps of `Start` before its `try`: leave the previous intercept, then write the specification. */
    method Prepare(entryAssemblyName: Option<string>, tmp: string, yaml: Option<string>,
                   runner: CommandRunner, fs: FileSystem) returns (o: Outcome<Fault>)
      modifies this`name, this`connection, this`workloads, this`handlers, this`temporaryDirectory,
               this`specificationPath, runner, fs
      ensures var ws := old(workloads).GetOr([factory.workload(old(name))]);
              var target := LeaveTarget(FirstIntercept(ws), old(name), entryAssemblyName);
        && workloads == Some(ws)
        && runner.started == old(runner.started) + (if target.Success? then [IS.LeaveCommand(target.value)] else [])
        && (target.Failure? ==> o == Fail(target.error) && unchanged(fs))
      ensures NameOf(old(name), entryAssemblyName).Failure? ==> o == Fail(TypeInitialization(CantDetermineName)) && unchanged(fs)
      ensures NameOf(old(name), entryAssemblyName).Success? ==>
        var n := NameOf(old(name), entryAssemblyName).value;
        && o == Pass && name == Some(n)
        && specificationPath == Some(IS.SpecificationPath(tmp, n))
        && fs.files == old(fs.files)[IS.SpecificationPath(tmp, n) := yaml.GetOr(TypeName)]
        && handlers == Some(old(handlers).GetOr([factory.handler(Some(n))]))
    {
      ghost var name0 := name;
      o := Leave(entryAssemblyName, runner);
      if o.Fail? {
        return;
      }
      MemoisedNameStable(name0, entryAssemblyName);
      o := CreateInterceptSpecification(entryAssemblyName, tmp, yaml, fs);
    }

    /**
     * `Start`: connect, leave and write the specification (a failing name escapes from
     * either), then, inside a `try` that rethrows, require a first workload, a first
     * intercept and a first handler, let the handler run `intercept run <path>`, and set
     * both Kestrel variables to the intercept's local port.
     */
    method Start(entryAssemblyName: Option<string>, tmp: string, yaml: Option<string>,
                 handle: (Handler, seq<string>) -> Outcome<Fault>,
                 runner: CommandRunner, fs: FileSystem, env: Environment) returns (o: Outcome<Fault>)
      modifies this, runner, fs, env
      ensures var ws := old(workloads).GetOr([factory.workload(old(name))]);
              var target := LeaveTarget(FirstIntercept(ws), old(name), entryAssemblyName);
        && workloads == Some(ws)
        && runner.started == old(runner.started)
             + (if old(isConnected) then [] else [ConnectCommand(old(connection).GetOr(factory.connection))])
             + (if target.Success? then [IS.LeaveCommand(target.value)] else [])
        && (target.Failure? ==> o == Fail(target.error) && unchanged(fs))
      ensures NameOf(old(name), entryAssemblyName).Failure? ==> o == Fail(TypeInitialization(CantDetermineName)) && unchanged(fs)
      ensures o.Fail? ==> env.vars == old(env.vars)
      ensures NameOf(old(name), entryAssemblyName).Success? ==>
        var n := NameOf(old(name), entryAssemblyName).value;
        var ws := old(workloads).GetOr([factory.workload(old(name))]);
        var hs := old(handlers).GetOr([factory.handler(Some(n))]);
        var path := IS.SpecificationPath(tmp, n);
        && fs.files == old(fs.files)[path := yaml.GetOr(TypeName)]
        && (|ws| == 0 ==> o == Fail(InvalidOperation(NoWorkloadFound)))
        && (|ws| > 0 && FirstIntercept(ws).None? ==> o == Fail(InvalidOperation(NoWorkloadInterceptFound)))
        && (FirstIntercept(ws).Some? && |hs| == 0 ==> o == Fail(InvalidOperation(NoHandlerFound)))
        && (FirstIntercept(ws).Some? && |hs| > 0 ==>
              && (handle(hs[0], IS.RunCommand(path)).Fail? ==> o == handle(hs[0], IS.RunCommand(path)))
              && (handle(hs[0], IS.RunCommand(path)).Pass? ==>
                    && o == Pass
                    && env.vars == old(env.vars)[IS.DotnetUrls := PortUrl(FirstIntercept(ws).value.localPort)]
                                                [IS.AspNetCoreUrls := PortUrl(FirstIntercept(ws).value.localPort)]))
    {
      Connect(runner);
      o := Prepare(entryAssemblyName, tmp, yaml, runner, fs);
      if o.Fail? {
        return;
      }
      o := RunFirstHandler(specificationPath.value, handle, env);
    }

    /** `Quit` throws before it reaches `DestroyAssets`. */
    method Quit() returns (o: Outcome<Fault>)
      ensures o == Fail(NotImplemented)
    {
      o := Fail(NotImplemented);
    }
  }

  /** `Connect` is idempotent: a second call after a completed first one starts nothing. */
  method ConnectOnce(factory: Factory) returns (commands: seq<seq<string>>)
    ensures commands == [ConnectCommand(factory.connection)]
  {
    var i := new Intercept(factory);
    var runner := new CommandRunner([]);
    i.Connect(runner);
    assert i.isConnected;
    i.Connect(runner);
    commands := runner.started;
  }
}
