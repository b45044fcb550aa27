/**
 * The entities of an intercept specification: workload intercepts, workloads, handlers and
 * the connection. Each `init` accessor is a method that validates and stores, or throws and
 * leaves the object as it was. Getters written with `??=` are methods that fill their memo
 * field on first read. Host values that defaults read (the entry-assembly name, the user
 * name, the kubeconfig, random draws and the TCP connection table) are parameters.
 */
module SpecEntities {
  import opened Wrappers
  import opened Text
  import opened Constants
  import opened Patterns
  import opened Validation
  import opened SpecValues
  import opened Host
  import opened ProcessEnvironment
  import opened EnvironmentLoader
  import opened OutputHandlers
  import OutputLoader

  /** `NamedValuePair<string, string>` */
  type NamedValue = (string, string)

  /** A memoised name: the stored one, else the convention-based default. */
  function MemoName(memo: Option<string>, entryAssemblyName: Option<string>): (r: Result<string, Fault>)
    ensures memo.Some? ==> r == Success(memo.value)
    ensures memo.None? ==> r == NormalizedEntryAssembly(entryAssemblyName)
  {
    if memo.Some? then Success(memo.value) else NormalizedEntryAssembly(entryAssemblyName)
  }

  /** The memo field after a `??=` read of the name. */
  function MemoUpdated(memo: Option<string>, entryAssemblyName: Option<string>): (r: Option<string>)
    ensures memo.Some? ==> r == memo
    ensures r.Some? <==> MemoName(memo, entryAssemblyName).Success?
  {
    var n := MemoName(memo, entryAssemblyName);
    if n.Success? then Some(n.value) else memo
  }

  /** The elements of an optional list, none when it is null. */
  function Members<T>(list: Option<seq<T>>): (r: seq<T>)
    ensures list.Some? ==> r == list.value
    ensures list.None? ==> r == []
  {
    if list.Some? then list.value else []
  }

  // ----- WorkloadIntercept -----

  datatype PathFilter = PathPrefix | PathSuffix | PathEqual | PathRegexp

  const RandomPortLow := 55000
  /** Exclusive, as `Random.Next(55000, 65535)` is. */
  const RandomPortHigh := 65535

  /** The first drawn port that no active TCP connection uses. */
  function FirstFree(draws: seq<int>, inUse: set<int>): (r: Option<int>)
    ensures r.Some? ==> r.value in draws && r.value !in inUse
    ensures r.None? <==> forall i :: 0 <= i < |draws| ==> draws[i] in inUse
    decreases |draws|
  {
    if |draws| == 0 then None
    else if draws[0] !in inUse then Some(draws[0])
    else FirstFree(draws[1..], inUse)
  }

  /**
   * `GenerateRandomLocalPort`: draw from [55000, 65535) until the port is free. `draws`
   * are the generator's values; `None` means the loop is still drawing after all of them.
   */
  method GenerateRandomLocalPort(draws: seq<int>, inUse: set<int>) returns (port: Option<int>)
    requires forall i :: 0 <= i < |draws| ==> RandomPortLow <= draws[i] < RandomPortHigh
    ensures port == FirstFree(draws, inUse)
    ensures port.Some? ==> RandomPortLow <= port.value < RandomPortHigh && port.value !in inUse
  {
    var i := 0;
    while i < |draws|
      invariant 0 <= i <= |draws|
      invariant FirstFree(draws, inUse) == FirstFree(draws[i..], inUse)
    {
      assert draws[i..][1..] == draws[i + 1..];
      if draws[i] !in inUse {
        return Some(draws[i]);
      }
      i := i + 1;
    }
    return None;
  }

  /** `GenerateDefaultHeaders`: one `x-telepresence-intercept-as` header carrying the user name. */
  function DefaultHeaders(userName: string): (r: seq<NamedValue>)
    ensures |r| == 1 && r[0].0 == InterceptAsHeader && r[0].1 == userName
  {
    [(InterceptAsHeader, userName)]
  }

  class WorkloadIntercept {
    var handler: Option<string>
    var name: Option<string>
    var localPort: Option<int>
    var localAddress: Option<string>
    var service: Option<string>
    var port: Option<int>
    var global: Option<bool>
    var headers: Option<seq<NamedValue>>
    var paths: map<PathFilter, string>
    var enabled: Option<bool>

    /** Ports are in range and a local address has dotted-quad shape. */
    predicate Valid()
      reads this
    {
      && (localPort.Some? ==> IsPort(localPort.value))
      && (port.Some? ==> IsPort(port.value))
      && (localAddress.Some? ==> IsDottedQuad(localAddress.value))
    }

    /** Headers are stored or some path filter is non-blank: what `Global` refuses to join. */
    predicate HasFilters()
      reads this
    {
      headers.Some? || exists f :: f in paths && !IsBlank(paths[f])
    }

    constructor ()
      ensures Valid()
      ensures handler == None && name == None && localPort == None && localAddress == None
      ensures service == None && port == None && global == None && headers == None
      ensures paths == map[] && enabled == Some(true)
    {
      handler, name, localPort, localAddress := None, None, None, None;
      service, port, global, headers := None, None, None, None;
      paths := map[];
      enabled := Some(true);
    }

    /** `Enabled { get; init; } = true` */
    method InitEnabled(value: Option<bool>)
      modifies this`enabled
      ensures enabled == value
    {
      enabled := value;
    }

    /** `Handler` init: required, at most 64 characters, an identifier. */
    method InitHandler(value: Option<string>) returns (o: Outcome<Fault>)
      modifies this`handler
      ensures o == CheckName("Handler", value, true, value.Some? && IsIdentifier(value.value), AlphaNumericWithHyphens)
      ensures handler == if o.Pass? then value else old(handler)
    {
      o := CheckName("Handler", value, true, value.Some? && IsIdentifier(value.value), AlphaNumericWithHyphens);
      if o.Pass? {
        handler := value;
      }
    }

    /** `Name` init: a blank value is silently ignored; otherwise as `Handler`. */
    method InitName(value: Option<string>) returns (o: Outcome<Fault>)
      modifies this`name
      ensures IsNullOrBlank(value) ==> o == Pass && name == old(name)
      ensures !IsNullOrBlank(value) ==> o == CheckName("Name", value, true, IsIdentifier(value.value), AlphaNumericWithHyphens)
      ensures !IsNullOrBlank(value) ==> name == if o.Pass? then value else old(name)
    {
      if IsNullOrBlank(value) {
        return Pass;
      }
      o := CheckName("Name", value, true, IsIdentifier(value.value), AlphaNumericWithHyphens);
      if o.Pass? {
        name := value;
      }
    }

    /** `LocalPort` init: null is ignored, a port outside 1..65535 throws. */
    method InitLocalPort(value: Option<int>) returns (o: Outcome<Fault>)
      requires Valid()
      modifies this`localPort
      ensures Valid()
      ensures o == CheckPort(value)
      ensures localPort == if value.Some? && o.Pass? then value else old(localPort)
    {
      o := CheckPort(value);
      if value.Some? && o.Pass? {
        localPort := value;
      }
    }

    /** `Port` init: as `LocalPort`. */
    method InitPort(value: Option<int>) returns (o: Outcome<Fault>)
      requires Valid()
      modifies this`port
      ensures Valid()
      ensures o == CheckPort(value)
      ensures port == if value.Some? && o.Pass? then value else old(port)
    {
      o := CheckPort(value);
      if value.Some? && o.Pass? {
        port := value;
      }
    }

    /** `LocalAddress` init: blank is ignored; otherwise four dot-separated groups of 1..3 digits. */
    method InitLocalAddress(value: Option<string>) returns (o: Outcome<Fault>)
      requires Valid()
      modifies this`localAddress
      ensures Valid()
      ensures o == Pass <==> IsNullOrBlank(value) || IsDottedQuad(value.value)
      ensures o.Fail? ==> o.error == InvalidOperation(NotAnIpAddress)
      ensures localAddress == if !IsNullOrBlank(value) && o.Pass? then value else old(localAddress)
    {
      if IsNullOrBlank(value) {
        return Pass;
      }
      if !IsDottedQuad(value.value) {
        return Fail(InvalidOperation(NotAnIpAddress));
      }
      localAddress := value;
      return Pass;
    }

    /** `Service` init: blank is ignored; otherwise `^[a-z][a-z0-9-]{1,62}$`. */
    method InitService(value: Option<string>) returns (o: Outcome<Fault>)
      modifies this`service
      ensures o == Pass <==> IsNullOrBlank(value) || IsBoundedLowerName(value.value)
      ensures o.Fail? ==> o.error == InvalidOperation(AlphaNumericWithHyphens)
      ensures service == if !IsNullOrBlank(value) && o.Pass? then value else old(service)
    {
      if IsNullOrBlank(value) {
        return Pass;
      }
      if !IsBoundedLowerName(value.value) {
        return Fail(InvalidOperation(AlphaNumericWithHyphens));
      }
      service := value;
      return Pass;
    }

    /** A path filter's auto-property init. */
    method InitPath(filter: PathFilter, value: Option<string>)
      modifies this`paths
      ensures paths == if value.Some? then old(paths)[filter := value.value] else old(paths) - {filter}
    {
      paths := if value.Some? then paths[filter := value.value] else paths - {filter};
    }

    /** `Headers` init: null or empty is ignored. */
    method InitHeaders(value: Option<seq<NamedValue>>)
      modifies this`headers
      ensures headers == if value.Some? && |value.value| > 0 then value else old(headers)
    {
      if value.Some? && |value.value| > 0 {
        headers := value;
      }
    }

    /**
     * `Global` init: null is ignored; a value is refused while headers are stored or a path
     * filter is non-blank. Only what was set before `Global` is checked.
     */
    method InitGlobal(value: Option<bool>) returns (o: Outcome<Fault>)
      modifies this`global
      ensures o.Fail? <==> value.Some? && HasFilters()
      ensures o.Fail? ==> o.error == InvalidOperation(GlobalMutuallyExclusive)
      ensures global == if value.Some? && o.Pass? then value else old(global)
    {
      if value.None? {
        return Pass;
      }
      if HasFilters() {
        return Fail(InvalidOperation(GlobalMutuallyExclusive));
      }
      global := value;
      return Pass;
    }

    /** `Name` getter: `_name ??= NormalizedEntryAssembly`. */
    method GetName(entryAssemblyName: Option<string>) returns (r: Result<string, Fault>)
      modifies this`name
      ensures r == MemoName(old(name), entryAssemblyName)
      ensures name == if r.Success? then Some(r.value) else old(name)
    {
      r := MemoName(name, entryAssemblyName);
      if r.Success? {
        name := Some(r.value);
      }
    }

    /** `Handler` getter: `_handler ??= Name`. */
    method GetHandler(entryAssemblyName: Option<string>) returns (r: Result<string, Fault>)
      modifies this`handler, this`name
      ensures old(handler).Some? ==> r == Success(old(handler).value) && name == old(name)
      ensures old(handler).None? ==> r == MemoName(old(name), entryAssemblyName)
      ensures name == if old(handler).None? && r.Success? then Some(r.value) else old(name)
      ensures handler == if r.Success? then Some(r.value) else old(handler)
    {
      if handler.Some? {
        return Success(handler.value);
      }
      r := GetName(entryAssemblyName);
      if r.Success? {
        handler := Some(r.value);
      }
    }

    /** `Service` getter: `_service ??= Name`. */
    method GetService(entryAssemblyName: Option<string>) returns (r: Result<string, Fault>)
      modifies this`service, this`name
      ensures old(service).Some? ==> r == Success(old(service).value) && name == old(name)
      ensures old(service).None? ==> r == MemoName(old(name), entryAssemblyName)
      ensures name == if old(service).None? && r.Success? then Some(r.value) else old(name)
      ensures service == if r.Success? then Some(r.value) else old(service)
    {
      if service.Some? {
        return Success(service.value);
      }
      r := GetName(entryAssemblyName);
      if r.Success? {
        service := Some(r.value);
      }
    }

    /** `LocalPort` getter: `_localPort ??= GenerateRandomLocalPort()`; `None` while still drawing. */
    method GetLocalPort(draws: seq<int>, inUse: set<int>) returns (r: Option<int>)
      requires forall i :: 0 <= i < |draws| ==> RandomPortLow <= draws[i] < RandomPortHigh
      modifies this`localPort
      ensures old(Valid()) ==> Valid()
      ensures old(localPort).None? && r.Some? ==> RandomPortLow <= r.value < RandomPortHigh && r.value !in inUse
      ensures old(localPort).Some? ==> r == old(localPort)
      ensures old(localPort).None? ==> r == FirstFree(draws, inUse)
      ensures localPort == if old(localPort).Some? then old(localPort) else r
    {
      if localPort.Some? {
        return localPort;
      }
      r := GenerateRandomLocalPort(draws, inUse);
      localPort := r;
    }

    /** `Headers` getter: `_headers ??= GenerateDefaultHeaders()`, whatever `Global` says. */
    method GetHeaders(userName: string) returns (r: seq<NamedValue>)
      modifies this`headers
      ensures old(headers).Some? ==> r == old(headers).value
      ensures old(headers).None? ==> r == DefaultHeaders(userName)
      ensures headers == Some(r)
    {
      if headers.None? {
        headers := Some(DefaultHeaders(userName));
      }
      r := headers.value;
    }

    /** The fields the getters memoise. */
    function Memo(): InterceptMemo
      reads this
    {
      InterceptMemo(handler, name, localPort, service, headers)
    }

    /**
     * What the YAML serializer reads of an intercept, in declaration order: `Enabled`,
     * `Handler`, `Name`, `LocalPort`, `LocalAddress`, `MountPoint`, `Service`, `Port`,
     * `Global`, `Replace`, `Headers`, the path filters, `Plaintext` and `PreviewUrl`. Only
     * `Handler` and `Name` can throw, when no name can be found; the port is drawn as the
     * getter draws it.
     */
    method Serialize(entryAssemblyName: Option<string>, draws: seq<int>, inUse: set<int>, userName: string)
      returns (o: Outcome<Fault>)
      requires forall i :: 0 <= i < |draws| ==> RandomPortLow <= draws[i] < RandomPortHigh
      requires FirstFree(draws, inUse).Some?
      modifies this`handler, this`name, this`localPort, this`service, this`headers
      ensures old(Valid()) ==> Valid()
      ensures o.Pass? <==> MemoName(old(name), entryAssemblyName).Success?
      ensures o.Fail? ==> o.error == MemoName(old(name), entryAssemblyName).error
      ensures Memo() == SerializedIntercept(old(Memo()), entryAssemblyName, FirstFree(draws, inUse).value, userName)
    {
      var h := GetHandler(entryAssemblyName);
      if h.Failure? {
        return Fail(h.error);
      }
      var n := GetName(entryAssemblyName);
      if n.Failure? {
        return Fail(n.error);
      }
      var p := GetLocalPort(draws, inUse);
      var s := GetService(entryAssemblyName);
      var hs := GetHeaders(userName);
      return Pass;
    }
  }

  /** The memoised fields of an intercept: `Handler`, `Name`, `LocalPort`, `Service`, `Headers`. */
  datatype InterceptMemo = InterceptMemo(handler: Option<string>, name: Option<string>, localPort: Option<int>,
                                         service: Option<string>, headers: Option<seq<NamedValue>>)
  {
    /** Every memo field holds a value. */
    predicate Filled() {
      handler.Some? && name.Some? && localPort.Some? && service.Some? && headers.Some?
    }
  }

  /**
   * The memo fields after the serializer has read an intercept: unchanged when no name can be
   * found; otherwise every field is filled, a stored value kept, a missing `Handler` and
   * `Service` taken from the name, a missing port drawn and missing headers defaulted.
   */
  function SerializedIntercept(m: InterceptMemo, entryAssemblyName: Option<string>, drawn: int, userName: string)
    : (r: InterceptMemo)
    ensures MemoName(m.name, entryAssemblyName).Failure? ==> r == m
    ensures MemoName(m.name, entryAssemblyName).Success? ==>
      && r.Filled() && r.name == Some(MemoName(m.name, entryAssemblyName).value)
      && r.handler == (if m.handler.Some? then m.handler else r.name)
      && r.service == (if m.service.Some? then m.service else r.name)
      && r.localPort == (if m.localPort.Some? then m.localPort else Some(drawn))
      && r.headers == (if m.headers.Some? then m.headers else Some(DefaultHeaders(userName)))
  {
    var n := MemoName(m.name, entryAssemblyName);
    if n.Failure? then m
    else InterceptMemo(if m.handler.Some? then m.handler else Some(n.value), Some(n.value),
                       if m.localPort.Some? then m.localPort else Some(drawn),
                       if m.service.Some? then m.service else Some(n.value),
                       if m.headers.Some? then m.headers else Some(DefaultHeaders(userName)))
  }

  /**
   * Reading an intercept twice leaves what reading it once leaves (the serializer may walk
   * the graph more than once); a filled intercept is not changed; whether the name can be
   * found does not change.
   */
  lemma SerializedInterceptStable(m: InterceptMemo, entryAssemblyName: Option<string>, drawn: int, userName: string)
    ensures SerializedIntercept(SerializedIntercept(m, entryAssemblyName, drawn, userName), entryAssemblyName, drawn, userName)
            == SerializedIntercept(m, entryAssemblyName, drawn, userName)
    ensures m.Filled() ==> SerializedIntercept(m, entryAssemblyName, drawn, userName) == m
    ensures MemoName(SerializedIntercept(m, entryAssemblyName, drawn, userName).name, entryAssemblyName).Success?
            == MemoName(m.name, entryAssemblyName).Success?
  {
  }

  /** Initialiser order decides `Global`: headers first is refused, headers after is accepted. */
  method GlobalOrderMatters() returns (headersFirst: Outcome<Fault>, globalFirst: Outcome<Fault>, bothStored: bool)
    ensures headersFirst == Fail(InvalidOperation(GlobalMutuallyExclusive))
    ensures globalFirst == Pass && bothStored
  {
    var a := new WorkloadIntercept();
    a.InitHeaders(Some([("x-team", "blue")]));
    headersFirst := a.InitGlobal(Some(true));
    var b := new WorkloadIntercept();
    globalFirst := b.InitGlobal(Some(true));
    b.InitHeaders(Some([("x-team", "blue")]));
    bothStored := b.global == Some(true) && b.headers.Some?;
  }

  // ----- Workload -----

  class Workload {
    var name: Option<string>
    var intercepts: Option<seq<WorkloadIntercept>>

    /** Stored intercepts number 1..16. */
    predicate Valid()
      reads this
    {
      intercepts.Some? ==> 1 <= |intercepts.value| <= 16
    }

    constructor ()
      ensures Valid() && name == None && intercepts == None
    {
      name, intercepts := None, None;
    }

    /** `Name` init: required, at most 64 characters, `^[a-z][a-z0-9-]*$`. */
    method InitName(value: Option<string>) returns (o: Outcome<Fault>)
      modifies this`name
      ensures o == CheckName("Name", value, true, value.Some? && IsLowerName(value.value), AlphaNumericWithHyphens)
      ensures name == if o.Pass? then value else old(name)
    {
      o := CheckName("Name", value, true, value.Some? && IsLowerName(value.value), AlphaNumericWithHyphens);
      if o.Pass? {
        name := value;
      }
    }

    /** `Name` getter: `_name ??= NormalizedEntryAssembly`. */
    method GetName(entryAssemblyName: Option<string>) returns (r: Result<string, Fault>)
      modifies this`name
      ensures r == MemoName(old(name), entryAssemblyName)
      ensures name == if r.Success? then Some(r.value) else old(name)
    {
      r := MemoName(name, entryAssemblyName);
      if r.Success? {
        name := Some(r.value);
      }
    }

    /** `Intercepts` init: null is stored (the getter then supplies the default); otherwise 1..16 entries. */
    method InitIntercepts(value: Option<seq<WorkloadIntercept>>) returns (o: Outcome<Fault>)
      requires Valid()
      modifies this`intercepts
      ensures Valid()
      ensures o.Fail? <==> value.Some? && !(1 <= |value.value| <= 16)
      ensures o.Fail? ==> o.error == InvalidOperation(InvalidNumberOfInterceptsDefined)
      ensures intercepts == if o.Pass? then value else old(intercepts)
    {
      if value.Some? && !(1 <= |value.value| <= 16) {
        return Fail(InvalidOperation(InvalidNumberOfInterceptsDefined));
      }
      intercepts := value;
      return Pass;
    }

    /**
     * `Intercepts` getter: `_intercepts ??= [new() { Name = _name }]`. The default intercept
     * takes the workload's stored name, not its default, and its `Name` init can throw.
     */
    method GetIntercepts() returns (r: Result<seq<WorkloadIntercept>, Fault>)
      requires Valid()
      modifies this`intercepts
      ensures Valid()
      ensures old(intercepts).Some? ==> r == Success(old(intercepts).value) && intercepts == old(intercepts)
      ensures old(intercepts).None? && r.Success? ==>
        |r.value| == 1 && fresh(r.value[0]) && r.value[0].Valid() && intercepts == Some(r.value)
        && r.value[0].Memo() == InterceptMemo(None, if IsNullOrBlank(name) then None else name, None, None, None)
      ensures r.Success? <==> old(InterceptsReadable())
      ensures old(intercepts).None? && r.Failure? ==>
        (intercepts == None && !IsNullOrBlank(name)
         && CheckName("Name", name, true, IsIdentifier(name.value), AlphaNumericWithHyphens) == Fail(r.error))
      ensures r.Success? ==> 1 <= |r.value| <= 16
    {
      if intercepts.Some? {
        return Success(intercepts.value);
      }
      var intercept := new WorkloadIntercept();
      var o := intercept.InitName(name);
      if o.Fail? {
        return Failure(o.error);
      }
      intercepts := Some([intercept]);
      return Success([intercept]);
    }

    /** Whether the first read of `Intercepts` succeeds: a list is stored, or the default accepts the name. */
    predicate InterceptsReadable()
      reads this
    {
      intercepts.Some? || IsNullOrBlank(name)
      || CheckName("Name", name, true, IsIdentifier(name.value), AlphaNumericWithHyphens) == Pass
    }

    /** Whether the serializer reads `Name`, `Intercepts` and every intercept's getters without a throw. */
    predicate Serializable(entryAssemblyName: Option<string>)
      reads this, Members(intercepts)
    {
      var n := MemoName(name, entryAssemblyName);
      && n.Success?
      && (intercepts.None? ==>
            DefaultInterceptAccepts(n.value) && MemoName(DefaultInterceptMemo(n.value).name, entryAssemblyName).Success?)
      && (forall i :: i in Members(intercepts) ==> MemoName(i.name, entryAssemblyName).Success?)
    }

    /** After a complete read: the name and the intercepts are memoised, and every intercept's memo fields are filled. */
    predicate Serialized()
      reads this, Members(intercepts)
    {
      name.Some? && intercepts.Some? && forall i :: i in intercepts.value ==> i.Memo().Filled()
    }

    /**
     * What the serializer reads of a workload: `Name`, then `Intercepts`, then each intercept
     * in turn, stopping at the first throw.
     */
    method Serialize(entryAssemblyName: Option<string>, draws: seq<int>, inUse: set<int>, userName: string)
      returns (o: Outcome<Fault>)
      requires Valid()
      requires forall i :: 0 <= i < |draws| ==> RandomPortLow <= draws[i] < RandomPortHigh
      requires FirstFree(draws, inUse).Some?
      modifies this, Members(intercepts)
      ensures Valid()
      ensures o.Pass? <==> old(Serializable(entryAssemblyName))
      ensures name == MemoUpdated(old(name), entryAssemblyName)
      ensures old(intercepts).Some? ==> intercepts == old(intercepts)
      ensures old(intercepts).None? && intercepts.Some? ==>
        && |intercepts.value| == 1 && fresh(intercepts.value[0]) && name.Some?
        && intercepts.value[0].Memo()
           == SerializedIntercept(DefaultInterceptMemo(name.value), entryAssemblyName, FirstFree(draws, inUse).value, userName)
      ensures forall i :: i in Members(old(intercepts)) ==>
        || i.Memo() == old(i.Memo())
        || i.Memo() == SerializedIntercept(old(i.Memo()), entryAssemblyName, FirstFree(draws, inUse).value, userName)
      ensures forall i :: i in Members(old(intercepts)) && old(i.Memo()).Filled() ==> i.Memo() == old(i.Memo())
      ensures o.Pass? ==> Serialized()
    {
      var n := GetName(entryAssemblyName);
      if n.Failure? {
        return Fail(n.error);
      }
      if intercepts.None? {
        var created := GetIntercepts();
        if created.Failure? {
          assert !DefaultInterceptAccepts(n.value);
          return Fail(created.error);
        }
        assert created.value[0].name == DefaultInterceptMemo(n.value).name;
        o := created.value[0].Serialize(entryAssemblyName, draws, inUse, userName);
        return;
      }
      o := SerializeIntercepts(intercepts.value, entryAssemblyName, draws, inUse, userName);
    }
  }

  /** The serializer reading each intercept of a list in turn, stopping at the first throw. */
  method SerializeIntercepts(list: seq<WorkloadIntercept>, entryAssemblyName: Option<string>, draws: seq<int>,
                             inUse: set<int>, userName: string) returns (o: Outcome<Fault>)
    requires forall i :: 0 <= i < |draws| ==> RandomPortLow <= draws[i] < RandomPortHigh
    requires FirstFree(draws, inUse).Some?
    modifies list
    ensures o.Pass? <==> old(forall i :: i in list ==> MemoName(i.name, entryAssemblyName).Success?)
    ensures forall i :: i in list ==>
      || i.Memo() == old(i.Memo())
      || i.Memo() == SerializedIntercept(old(i.Memo()), entryAssemblyName, FirstFree(draws, inUse).value, userName)
    ensures forall i :: i in list && old(i.Memo()).Filled() ==> i.Memo() == old(i.Memo())
    ensures o.Pass? ==> forall i :: i in list ==> i.Memo().Filled()
  {
    ghost var drawn := FirstFree(draws, inUse).value;
    var k := 0;
    while k < |list|
      invariant 0 <= k <= |list|
      invariant forall i :: i in list ==>
        i.Memo() == old(i.Memo()) || i.Memo() == SerializedIntercept(old(i.Memo()), entryAssemblyName, drawn, userName)
      invariant forall j :: 0 <= j < k ==> list[j].Memo().Filled() && MemoName(old(list[j].name), entryAssemblyName).Success?
    {
      var current := list[k];
      SerializedInterceptStable(old(current.Memo()), entryAssemblyName, drawn, userName);
      o := current.Serialize(entryAssemblyName, draws, inUse, userName);
      SerializedInterceptStable(old(current.Memo()), entryAssemblyName, drawn, userName);
      if o.Fail? {
        forall i | i in list && old(i.Memo()).Filled()
          ensures i.Memo() == old(i.Memo())
        {
          SerializedInterceptStable(old(i.Memo()), entryAssemblyName, drawn, userName);
        }
        return;
      }
      forall j | 0 <= j < k
        ensures list[j].Memo().Filled()
      {
        SerializedInterceptStable(list[j].Memo(), entryAssemblyName, drawn, userName);
      }
      k := k + 1;
    }
    forall i | i in list && old(i.Memo()).Filled()
      ensures i.Memo() == old(i.Memo())
    {
      SerializedInterceptStable(old(i.Memo()), entryAssemblyName, drawn, userName);
    }
    o := Pass;
  }

  /** How a workload's default intercept starts out: `new() { Name = <workload name> }` ignores a blank name. */
  function DefaultInterceptMemo(workloadName: string): (r: InterceptMemo)
    ensures r.handler == None && r.localPort == None && r.service == None && r.headers == None
    ensures r.name.Some? <==> !IsBlank(workloadName)
    ensures r.name.Some? ==> r.name.value == workloadName
  {
    InterceptMemo(None, if IsBlank(workloadName) then None else Some(workloadName), None, None, None)
  }

  /** Whether the default intercept's `Name` init accepts the workload's name. */
  predicate DefaultInterceptAccepts(workloadName: string) {
    IsBlank(workloadName)
    || CheckName("Name", Some(workloadName), true, IsIdentifier(workloadName), AlphaNumericWithHyphens) == Pass
  }

  /** A stored workload name always passes the intercept's own `Name` check, so the default intercept list never throws for it. */
  lemma WorkloadNameFitsIntercept(value: string)
    requires CheckName("Name", Some(value), true, IsLowerName(value), AlphaNumericWithHyphens) == Pass
    ensures CheckName("Name", Some(value), true, IsIdentifier(value), AlphaNumericWithHyphens) == Pass
  {
    LowerNameIsIdentifier(value);
  }

  // ----- Handler -----

  class Handler {
    var name: Option<string>
    var environment: Option<seq<NamedValue>>
    var docker: bool
    var script: Option<Script>
    /** `_handlerStrategy`: only an `External` is ever installed. */
    var strategy: Option<External>

    constructor ()
      ensures name == None && environment == None && !docker && script == None && strategy == None
    {
      name, environment, docker, script, strategy := None, None, false, None, None;
    }

    /** `Name` init: required, at most 64 characters, an identifier. */
    method InitName(value: Option<string>) returns (o: Outcome<Fault>)
      modifies this`name
      ensures o == CheckName("Name", value, true, value.Some? && IsIdentifier(value.value), AlphaNumericWithHyphensUnderscores)
      ensures name == if o.Pass? then value else old(name)
    {
      o := CheckName("Name", value, true, value.Some? && IsIdentifier(value.value), AlphaNumericWithHyphensUnderscores);
      if o.Pass? {
        name := value;
      }
    }

    /** `Name` getter: `_name ??= NormalizedEntryAssembly`. */
    method GetName(entryAssemblyName: Option<string>) returns (r: Result<string, Fault>)
      modifies this`name
      ensures r == MemoName(old(name), entryAssemblyName)
      ensures name == if r.Success? then Some(r.value) else old(name)
    {
      r := MemoName(name, entryAssemblyName);
      if r.Success? {
        name := Some(r.value);
      }
    }

    /** `Environment` init: null is ignored; every entry name must be `^[a-zA-Z_][a-zA-Z0-9_]*$`. */
    method InitEnvironment(value: Option<seq<NamedValue>>) returns (o: Outcome<Fault>)
      modifies this`environment
      ensures o.Fail? <==> value.Some? && exists i :: 0 <= i < |value.value| && !IsEnvName(value.value[i].0)
      ensures o.Fail? ==> o.error == InvalidOperation(AlphaNumericWithUnderscores)
      ensures environment == if value.Some? && o.Pass? then value else old(environment)
    {
      if value.None? {
        return Pass;
      }
      if exists i :: 0 <= i < |value.value| && !IsEnvName(value.value[i].0) {
        return Fail(InvalidOperation(AlphaNumericWithUnderscores));
      }
      environment := value;
      return Pass;
    }

    /** `Docker` init; the Docker handler's own shape is not part of this model, only its presence. */
    method InitDocker(present: bool)
      modifies this`docker
      ensures docker == present
    {
      docker := present;
    }

    /** `Script` init. It installs no strategy. */
    method InitScript(value: Option<Script>)
      modifies this`script
      ensures script == value
    {
      script := value;
    }

    /** `External` init: `_handlerStrategy = value`. */
    method InitExternal(value: Option<External>)
      modifies this`strategy
      ensures strategy == value
    {
      strategy := value;
    }

    /** `External` getter: never null; installs JSON-to-stdout when nothing is installed. */
    method GetExternal() returns (e: External)
      modifies this`strategy
      ensures old(strategy).Some? ==> e == old(strategy).value
      ensures old(strategy).None? ==> e == DefaultExternal
      ensures strategy == Some(e)
    {
      if strategy.None? {
        strategy := Some(DefaultExternal);
      }
      e := strategy.value;
    }

    /** The fields that reads change. */
    function Memo(): HandlerMemo
      reads this
    {
      HandlerMemo(name, strategy)
    }

    /**
     * What the serializer reads of a handler, in declaration order: `Name`, `Environment`,
     * `StopGracePeriod`, `Docker`, `Script` (its `Run`, then `Shell`) and `External`.
     */
    method Serialize(entryAssemblyName: Option<string>) returns (o: Outcome<Fault>)
      modifies this`name, this`strategy
      ensures o.Pass? <==> HandlerSerializable(old(name), script, entryAssemblyName)
      ensures Memo() == SerializedHandler(old(Memo()), script, entryAssemblyName)
    {
      var n := GetName(entryAssemblyName);
      if n.Failure? {
        return Fail(n.error);
      }
      if script.Some? {
        var run := RunOf(script.value);
        if run.Failure? {
          return Fail(run.error);
        }
      }
      var external := GetExternal();
      return Pass;
    }

    /**
     * `Handle`: delegate to the installed strategy. Nothing installed, or an external
     * handler without an output path, is a null dereference; stderr is not implemented.
     */
    method Handle(args: seq<string>, runner: CommandRunner, fs: FileSystem, env: Environment, checks: seq<bool>,
                  attempts: seq<OpenAttempt>, parse: string -> Parsed<OutputLoader.InterceptOutput>)
      returns (end: Completion)
      modifies runner, fs`files, env
      ensures HandleEffect(strategy, args, checks, attempts, parse, old(runner.started), old(runner.script),
                           old(fs.files), old(env.vars), end, runner.started, fs.files, env.vars)
    {
      if strategy.None? {
        return Raised(NullReference);
      }
      var target := ExternalTarget(strategy.value);
      if target.Failure? {
        return Raised(target.error);
      }
      match target.value {
        case StandardOutput =>
          end := HandleStandardOutput(args, runner, env, parse);
        case StandardError =>
          end := Raised(NotImplemented);
        case FileOutput(path) =>
          var o := HandleFileOutput(Some(path), fs, env, checks, attempts, parse);
          end := if o.Pass? then Completed else Raised(o.error);
      }
    }
  }

  /** The fields of a handler that reads change: the memoised `Name` and the installed strategy. */
  datatype HandlerMemo = HandlerMemo(name: Option<string>, strategy: Option<External>)

  /** Whether the serializer reads a handler's getters without a throw: a name is found and a set `Script` has a `Run`. */
  predicate HandlerSerializable(name: Option<string>, script: Option<Script>, entryAssemblyName: Option<string>) {
    MemoName(name, entryAssemblyName).Success? && (script.Some? ==> RunOf(script.value).Success?)
  }

  /**
   * A handler's fields after the serializer has read it: the name is memoised when found, and
   * the JSON-to-stdout strategy is installed when nothing was installed and `External` is
   * reached; a throw from `Script.Run` comes before `External` is read.
   */
  function SerializedHandler(m: HandlerMemo, script: Option<Script>, entryAssemblyName: Option<string>): (r: HandlerMemo)
    ensures r.name == MemoUpdated(m.name, entryAssemblyName)
    ensures !HandlerSerializable(m.name, script, entryAssemblyName) ==> r.strategy == m.strategy
    ensures HandlerSerializable(m.name, script, entryAssemblyName) ==>
      r.strategy == Some(if m.strategy.Some? then m.strategy.value else DefaultExternal)
  {
    var n := MemoName(m.name, entryAssemblyName);
    if n.Failure? then m
    else if script.Some? && RunOf(script.value).Failure? then m.(name := Some(n.value))
    else HandlerMemo(Some(n.value), Some(if m.strategy.Some? then m.strategy.value else DefaultExternal))
  }

  /** Reading a handler twice leaves what reading it once leaves, and does not change whether it can be read. */
  lemma SerializedHandlerStable(m: HandlerMemo, script: Option<Script>, entryAssemblyName: Option<string>)
    ensures SerializedHandler(SerializedHandler(m, script, entryAssemblyName), script, entryAssemblyName)
            == SerializedHandler(m, script, entryAssemblyName)
    ensures HandlerSerializable(SerializedHandler(m, script, entryAssemblyName).name, script, entryAssemblyName)
            == HandlerSerializable(m.name, script, entryAssemblyName)
  {
  }

  /** What `Handler.Handle` does, by installed strategy. */
  ghost predicate HandleEffect(strategy: Option<External>, args: seq<string>, checks: seq<bool>, attempts: seq<OpenAttempt>,
                         parse: string -> Parsed<OutputLoader.InterceptOutput>,
                         started0: seq<seq<string>>, script0: seq<RunOutcome>, files0: map<string, string>,
                         vars0: map<string, string>, end: Completion, started1: seq<seq<string>>,
                         files1: map<string, string>, vars1: map<string, string>)
  {
    if strategy.None? || strategy.value.strategy.None? then
      end == Raised(NullReference) && started1 == started0 && files1 == files0 && vars1 == vars0
    else match strategy.value.strategy.value
      case StandardError => end == Raised(NotImplemented) && started1 == started0 && files1 == files0 && vars1 == vars0
      case StandardOutput =>
        && started1 == started0 + [args] && files1 == files0
        && (NextOutcome(script0).Threw? ==> end == Raised(NextOutcome(script0).fault) && vars1 == vars0)
        && (NextOutcome(script0).Exited? ==> StdoutEffect(NextOutcome(script0).stdout, parse, vars0, end, vars1))
      case FileOutput(path) =>
        && started1 == started0
        && (exists o :: FileOutputEffect(Some(path), attempts, parse, files0, vars0, o, files1, vars1)
                        && end == (if o.Pass? then Completed else Raised(o.error)))
  }

  /** A handler starts the command at most once, and only with the arguments it was given. */
  lemma HandleStartsAtMostOnce(strategy: Option<External>, args: seq<string>, checks: seq<bool>,
                               attempts: seq<OpenAttempt>, parse: string -> Parsed<OutputLoader.InterceptOutput>,
                               started0: seq<seq<string>>, script0: seq<RunOutcome>, files0: map<string, string>,
                               vars0: map<string, string>, end: Completion, started1: seq<seq<string>>,
                               files1: map<string, string>, vars1: map<string, string>)
    requires HandleEffect(strategy, args, checks, attempts, parse, started0, script0, files0, vars0, end,
                          started1, files1, vars1)
    ensures started1 == started0 || started1 == started0 + [args]
  {
  }

  /**
   * The handler check `isDocker ^ isScript ^ isExternal` passes iff exactly one or all three
   * are set.
   */
  lemma ParityMeansOneOrAll(isDocker: bool, isScript: bool, isExternal: bool)
    ensures (isDocker != (isScript != isExternal)) <==>
      ((isDocker && !isScript && !isExternal) || (!isDocker && isScript && !isExternal)
       || (!isDocker && !isScript && isExternal) || (isDocker && isScript && isExternal))
  {
  }

  /** `External` is never null when read, so the check reduces to: Docker and Script both set or both unset. */
  predicate PassesHandlerCheck(docker: bool, script: Option<Script>) {
    var isExternal := true;
    docker != (script.Some? != isExternal)
  }

  lemma HandlerCheckReduces(docker: bool, script: Option<Script>)
    ensures PassesHandlerCheck(docker, script) <==> docker == script.Some?
    ensures docker && script.None? ==> !PassesHandlerCheck(docker, script)
  {
  }

  // ----- Connection -----

  /** `$"{Context}-{Namespace}".Replace('_', '-').ToLowerInvariant()` */
  function DefaultConnectionName(context: string, namespace: Option<string>): (r: string)
    ensures |r| == |context| + 1 + |namespace.GetOr("")|
    ensures forall i :: 0 <= i < |r| ==> r[i] != '_' && !IsAsciiUpper(r[i])
  {
    ToLower(ReplaceChar(context + "-" + namespace.GetOr(""), '_', '-'))
  }

  /** The default is not validated: a context holding '.' yields a name the `Name` init would refuse. */
  lemma DefaultConnectionNameUnchecked()
    ensures DefaultConnectionName("kind.local", Some("default")) == "kind.local-default"
    ensures !IsLowerName("kind.local-default")
  {
    assert ReplaceChar("kind.local" + "-" + "default", '_', '-') == "kind.local-default";
    assert ToLower("kind.local-default") == "kind.local-default";
    assert !IsLabelChar("kind.local-default"[4]);
    assert Chomp("kind.local-default") == "kind.local-defaul";
    assert !IsLabelChar("kind.local-defaul"[4]);
  }

  class Connection {
    var name: Option<string>
    var namespace: Option<string>
    var context: string
    var managerNamespace: Option<string>
    var mappedNamespaces: Option<seq<string>>

    /** Stored namespaces match `^[a-z0-9][a-z0-9-]{1,62}$`. */
    predicate Valid()
      reads this
    {
      && (managerNamespace.Some? ==> IsBoundedLabel(managerNamespace.value))
      && (mappedNamespaces.Some? ==> forall i :: 0 <= i < |mappedNamespaces.value| ==> IsBoundedLabel(mappedNamespaces.value[i]))
    }

    /** `Context`'s initialiser reads the kubeconfig's current context at construction. */
    constructor (currentContext: string)
      ensures Valid()
      ensures name == None && namespace == None && context == currentContext
      ensures managerNamespace == None && mappedNamespaces == None
    {
      name, namespace, context := None, None, currentContext;
      managerNamespace, mappedNamespaces := None, None;
    }

    method InitContext(value: string)
      modifies this`context
      ensures context == value
    {
      context := value;
    }

    /** `Name` init: required, at most 64 characters, `^[a-z][a-z0-9-]*$`. */
    method InitName(value: Option<string>) returns (o: Outcome<Fault>)
      modifies this`name
      ensures o == CheckName("Name", value, true, value.Some? && IsLowerName(value.value), AlphaNumericWithHyphens)
      ensures name == if o.Pass? then value else old(name)
    {
      o := CheckName("Name", value, true, value.Some? && IsLowerName(value.value), AlphaNumericWithHyphens);
      if o.Pass? {
        name := value;
      }
    }

    /** `Namespace` init: required and `^[a-z0-9][a-z0-9-]{1,62}$`. */
    method InitNamespace(value: Option<string>) returns (o: Outcome<Fault>)
      modifies this`namespace
      ensures o == CheckName("Namespace", value, false, value.Some? && IsBoundedLabel(value.value), AlphaNumericWithHyphens)
      ensures namespace == if o.Pass? then value else old(namespace)
    {
      o := CheckName("Namespace", value, false, value.Some? && IsBoundedLabel(value.value), AlphaNumericWithHyphens);
      if o.Pass? {
        namespace := value;
      }
    }

    /** `ManagerNamespace` init: as `Namespace`. */
    method InitManagerNamespace(value: Option<string>) returns (o: Outcome<Fault>)
      requires Valid()
      modifies this`managerNamespace
      ensures Valid()
      ensures o == CheckName("ManagerNamespace", value, false, value.Some? && IsBoundedLabel(value.value), AlphaNumericWithHyphens)
      ensures managerNamespace == if o.Pass? then value else old(managerNamespace)
    {
      o := CheckName("ManagerNamespace", value, false, value.Some? && IsBoundedLabel(value.value), AlphaNumericWithHyphens);
      if o.Pass? {
        managerNamespace := value;
      }
    }

    /** `MappedNamespaces` init: null throws; every element must match; an empty list is accepted. */
    method InitMappedNamespaces(value: Option<seq<string>>) returns (o: Outcome<Fault>)
      requires Valid()
      modifies this`mappedNamespaces
      ensures Valid()
      ensures value.None? ==> o == Fail(ArgumentNull("MappedNamespaces"))
      ensures value.Some? ==> (o == Pass <==> forall i :: 0 <= i < |value.value| ==> IsBoundedLabel(value.value[i]))
      ensures value.Some? && o.Fail? ==> o.error == InvalidOperation(AlphaNumericWithHyphens)
      ensures mappedNamespaces == if o.Pass? then value else old(mappedNamespaces)
    {
      if value.None? {
        return Fail(ArgumentNull("MappedNamespaces"));
      }
      if exists i :: 0 <= i < |value.value| && !IsBoundedLabel(value.value[i]) {
        return Fail(InvalidOperation(AlphaNumericWithHyphens));
      }
      mappedNamespaces := value;
      return Pass;
    }

    /** `Namespace` getter: `_namespace ??=` the kubeconfig's namespace (which may be null). */
    method GetNamespace(configNamespace: Option<string>) returns (r: Option<string>)
      modifies this`namespace
      ensures r == if old(namespace).Some? then old(namespace) else configNamespace
      ensures namespace == r
    {
      if namespace.None? {
        namespace := configNamespace;
      }
      r := namespace;
    }

    /** `Name` getter: `_name ??=` the normalised `<context>-<namespace>`, not validated. */
    method GetName(configNamespace: Option<string>) returns (r: string)
      modifies this`name, this`namespace
      ensures old(name).Some? ==> r == old(name).value && namespace == old(namespace)
      ensures old(name).None? ==>
        r == DefaultConnectionName(context, if old(namespace).Some? then old(namespace) else configNamespace)
        && namespace == if old(namespace).Some? then old(namespace) else configNamespace
      ensures name == Some(r)
    {
      if name.Some? {
        return name.value;
      }
      var ns := GetNamespace(configNamespace);
      r := DefaultConnectionName(context, ns);
      name := Some(r);
    }

    /**
     * What the serializer reads of a connection: `As`, `AsGroups`, `AsUID`, `Cluster`,
     * `Context`, `User`, then `Name` and `Namespace` (both memoised, neither throws), then
     * the plain namespace and proxy lists.
     */
    method Serialize(configNamespace: Option<string>)
      modifies this`name, this`namespace
      ensures namespace == if old(namespace).Some? then old(namespace) else configNamespace
      ensures name == Some(if old(name).Some? then old(name).value else DefaultConnectionName(context, namespace))
    {
      var n := GetName(configNamespace);
      var ns := GetNamespace(configNamespace);
    }
  }
}
