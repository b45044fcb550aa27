/**
 * The command-line `Intercept` (the files of `Intercept/`): every `init` accessor validates its value
 * and records its command-line words in the argument dictionary under the property's own
 * name; `Leave` runs `telepresence leave <name>`, and `Start` runs `telepresence intercept
 * <name>` with every recorded word and, when asked to, loads the environment file the
 * command wrote, applies the manual overrides and deletes the file. `Start` and `Leave`
 * catch and log every exception, so what they raised is returned as `caught`.
 */
module CommandLineIntercept {
  import opened Wrappers
  import opened Text
  import opened Constants
  import opened Patterns
  import opened Numbers
  import opened Arguments
  import opened Host
  import opened ProcessEnvironment
  import opened EnvironmentLoader
  import Validation
  import SpecEntities

  /** The properties of the command-line intercept; each keys its own dictionary entry. */
  datatype Property =
    | Address | DockerBuild | DockerBuildOptions | DockerDebug | DockerMount | DockerRun
    | EnvFile | EnvJson | HttpHeader | HttpMeta | HttpPathEqual | HttpPathPrefix | HttpPathRegexp
    | HttpPlainText | IngressHost | IngressL5Host | IngressPort | IngressTls | LocalMountPort
    | Mechanism | Mount | Port | PreviewUrl | PreviewUrlAddRequestHeaders | PreviewUrlBanner
    | Replace | Service | ToPod | UseSavedIntercept | Workload | Use
    /** Only ever removed from the dictionary, never recorded. */
    | InjectEnvironment

  /** The command-line spelling each recorded property uses. */
  function FlagOf(p: Property): string
    requires ShapeOf(p) != Unrecorded
  {
    match p
    case Address => "--address"
    case DockerBuild => "--docker-build"
    case DockerBuildOptions => "--docker-build-opt"
    case DockerDebug => "--docker-debug"
    case DockerMount => "--docker-mount"
    case DockerRun => "--docker-run"
    case EnvFile => "--env-file"
    case EnvJson => "--env-json"
    case HttpHeader => "--http-header"
    case HttpMeta => "--http-meta"
    case HttpPathEqual => "--http-path-equal"
    case HttpPathPrefix => "--http-path-prefix"
    case HttpPathRegexp => "--http-path-regexp"
    case HttpPlainText => "--http-plaintext"
    case IngressHost => "--ingress-host"
    case IngressL5Host => "--ingress-l5"
    case IngressPort => "--ingress-port"
    case IngressTls => "--ingress-tls"
    case LocalMountPort => "--local-mount-port"
    case Mechanism => "--mechanism"
    case Mount => "--mount"
    case Port => "--port"
    case PreviewUrl => "--preview-url"
    case PreviewUrlAddRequestHeaders => "--preview-url-add-request-headers"
    case PreviewUrlBanner => "--preview-url-banner"
    case Replace => "--replace"
    case Service => "--service"
    case ToPod => "--to-pod"
    case UseSavedIntercept => "--use-saved-intercept"
    case Workload => "--workload"
    case Use => "--use"
  }

  /** How a property is stored and what it records. */
  datatype Shape =
    /** One string, recorded as `flag, value`. */
    | TextShape
    /** A `bool?`, recorded as the bare flag whatever the value. */
    | SwitchShape
    /** An `int?` or `ushort?`, recorded as `flag, decimal`. */
    | NumberShape
    /** Key/value pairs. */
    | PairsShape
    /** A list of strings, one `flag, item` per non-blank item. */
    | ListShape
    /** Never recorded. */
    | Unrecorded

  /** The shape of each property; `Mechanism` is recorded as its enumeration member's name. */
  function ShapeOf(p: Property): Shape {
    match p
    case DockerBuildOptions | HttpHeader | HttpMeta | PreviewUrlAddRequestHeaders => PairsShape
    case HttpPlainText | IngressTls | PreviewUrl | PreviewUrlBanner | Replace => SwitchShape
    case IngressPort | LocalMountPort => NumberShape
    case ToPod => ListShape
    case InjectEnvironment => Unrecorded
    case _ => TextShape
  }

  predicate IsText(p: Property) { ShapeOf(p) == TextShape }

  /** The text properties without validation. */
  type PlainText = p: Property | IsText(p) && !p.Address? witness DockerBuild

  predicate IsSwitch(p: Property) { ShapeOf(p) == SwitchShape }

  type Switch = p: Property | IsSwitch(p) witness Replace

  /** `IngressPort` (an `int?`) and `LocalMountPort` (a `ushort?`). */
  predicate IsNumber(p: Property) { ShapeOf(p) == NumberShape }

  /** The range of the property's C# type. */
  predicate Representable(p: Property, n: int) {
    if p.LocalMountPort? then 0 <= n <= 0xFFFF else IsInt32(n)
  }

  /** Properties stored as key/value pairs; all four refuse an empty list. */
  predicate IsPairs(p: Property) { ShapeOf(p) == PairsShape }

  type PairList = p: Property | IsPairs(p) witness HttpHeader

  /** The C# names the out-of-range exceptions carry. */
  function PairListName(p: PairList): string {
    match p
    case DockerBuildOptions => "DockerBuildOptions"
    case HttpHeader => "HttpHeader"
    case HttpMeta => "HttpMeta"
    case PreviewUrlAddRequestHeaders => "PreviewUrlAddRequestHeaders"
  }

  /**
   * The words a pair list records: one `flag, key=value` per pair with a non-blank value, or,
   * for the preview headers, one flag and those assignments comma-joined.
   */
  function PairWords(p: PairList, pairs: seq<Pair>): (r: seq<string>)
    ensures !p.PreviewUrlAddRequestHeaders? ==> |r| == 2 * |NonBlankValued(pairs)|
    ensures p.PreviewUrlAddRequestHeaders? ==> |r| == 2 && r[0] == FlagOf(p)
  {
    if p.PreviewUrlAddRequestHeaders? then [FlagOf(p), Join(',', Assignments(NonBlankValued(pairs)))]
    else PairArguments(FlagOf(p), pairs)
  }

  /** A pair list flag stands before each of its non-blank assignments, in order. */
  lemma PairWordsAt(p: PairList, pairs: seq<Pair>, i: nat)
    requires !p.PreviewUrlAddRequestHeaders? && i < |NonBlankValued(pairs)|
    ensures PairWords(p, pairs)[2 * i] == FlagOf(p)
    ensures PairWords(p, pairs)[2 * i + 1] == NonBlankValued(pairs)[i].0 + "=" + NonBlankValued(pairs)[i].1
  {
    RepeatedAt(FlagOf(p), Assignments(NonBlankValued(pairs)), i);
  }

  /** `Address` init: `^[0-9]{1,3}\.[0-9]{1,3}\.[0-9]{1,3}\.[0-9]{1,3}$|\{\{`; no blank check. */
  function CheckAddress(value: string): (r: Outcome<Fault>)
    ensures r == Pass <==> IsDottedQuad(value) || HasPlaceholder(value)
    ensures r.Fail? ==> r.error == InvalidOperation(NotAnIpAddress)
  {
    if IsDottedQuad(value) || HasPlaceholder(value) then Pass else Fail(InvalidOperation(NotAnIpAddress))
  }

  /** `Name` init: not blank and `^[a-zA-Z][a-zA-Z0-9_-]*$|\{\{`; no length limit. */
  function CheckInterceptName(value: Option<string>): (r: Outcome<Fault>)
    ensures r == Pass <==> value.Some? && !IsBlank(value.value) && (IsIdentifier(value.value) || HasPlaceholder(value.value))
    ensures IsNullOrBlank(value) ==> r == Fail(ArgumentNull("Name"))
    ensures r.Fail? && !IsNullOrBlank(value) ==> r == Fail(InvalidOperation(AlphaNumericWithHyphens))
  {
    Validation.CheckName("Name", value, false, value.Some? && (IsIdentifier(value.value) || HasPlaceholder(value.value)), AlphaNumericWithHyphens)
  }

  /** `["leave", name]`, followed by `--use, use` when `Use` is set and not blank. */
  function LeaveCommand(name: string, use: Option<string>): (r: seq<string>)
    ensures |r| == (if IsNullOrBlank(use) then 2 else 4)
    ensures r[..2] == ["leave", name]
    ensures !IsNullOrBlank(use) ==> r[2..] == ["--use", use.value]
  {
    ["leave", name] + (if IsNullOrBlank(use) then [] else ["--use", use.value])
  }

  // ----- environment injection -----

  /**
   * The pairs whose key is not excluded, in their order (`WithoutAppend`), each as often as it
   * occurs (`WithoutMultiplicity`).
   */
  function Without(entries: seq<Pair>, excluded: seq<string>): (r: seq<Pair>)
    ensures forall e :: e in r <==> e in entries && e.0 !in excluded
    ensures forall i :: 0 <= i < |r| ==> r[i].0 !in excluded
    decreases |entries|
  {
    if |entries| == 0 then []
    else
      var last := entries[|entries| - 1];
      assert entries == entries[..|entries| - 1] + [last];
      Without(entries[..|entries| - 1], excluded) + (if last.0 in excluded then [] else [last])
  }

  /** Each pair with a kept key is kept as often as it occurs, and none with an excluded key. */
  lemma {:induction false} WithoutMultiplicity(entries: seq<Pair>, excluded: seq<string>)
    ensures forall e :: multiset(Without(entries, excluded))[e] == if e.0 in excluded then 0 else multiset(entries)[e]
    decreases |entries|
  {
    if |entries| > 0 {
      var init := entries[..|entries| - 1];
      var last := entries[|entries| - 1];
      assert entries == init + [last];
      WithoutMultiplicity(init, excluded);
      assert multiset(entries) == multiset(init) + multiset{last};
    }
  }

  /** Filtering keeps order: the filter of a concatenation is the concatenation of the filters. */
  lemma {:induction false} WithoutAppend(a: seq<Pair>, b: seq<Pair>, excluded: seq<string>)
    ensures Without(a + b, excluded) == Without(a, excluded) + Without(b, excluded)
    decreases |b|
  {
    if |b| == 0 {
      assert a + b == a;
      assert Without(b, excluded) == [];
    } else {
      var init := b[..|b| - 1];
      var last := b[|b| - 1];
      var tail := if last.0 in excluded then [] else [last];
      assert (a + b)[..|a + b| - 1] == a + init && (a + b)[|a + b| - 1] == last;
      assert Without(a + b, excluded) == Without(a + init, excluded) + tail;
      assert Without(b, excluded) == Without(init, excluded) + tail;
      WithoutAppend(a, init, excluded);
      assert Without(a + init, excluded) + tail == Without(a, excluded) + (Without(init, excluded) + tail);
    }
  }

  /** Filtering keeps a kept key's last value: no later pair for it is dropped. */
  lemma {:induction false} WithoutLastValue(entries: seq<Pair>, excluded: seq<string>, key: string)
    requires key !in excluded
    ensures LastValue(Without(entries, excluded), key) == LastValue(entries, key)
    decreases |entries|
  {
    if |entries| > 0 {
      var init := entries[..|entries| - 1];
      var last := entries[|entries| - 1];
      var w := Without(init, excluded);
      WithoutLastValue(init, excluded, key);
      if last.0 !in excluded {
        assert Without(entries, excluded) == w + [last];
        assert (w + [last])[..|w|] == w;
      } else {
        assert Without(entries, excluded) == w;
      }
    }
  }

  /**
   * The manual overrides applied after the file: none unless `IncludeEnvironment` has pairs;
   * all of them when `ExcludeEnvironment` is missing or empty; otherwise those whose key it
   * does not list.
   */
  function Overrides(included: Option<seq<Pair>>, excluded: Option<seq<string>>): (r: seq<Pair>)
    ensures included.None? ==> r == []
    ensures included.Some? && (excluded.None? || |excluded.value| == 0) ==> r == included.value
    ensures forall e :: e in r <==> included.Some? && e in included.value && (excluded.None? || e.0 !in excluded.value)
  {
    if included.None? || |included.value| == 0 then []
    else if excluded.None? || |excluded.value| == 0 then included.value
    else Without(included.value, excluded.value)
  }

  /** `EnvFile` when it is not blank, else `EnvJson` when that is not blank, else no file. */
  function InjectionPath(envFile: Option<string>, envJson: Option<string>): (r: Option<string>)
    ensures r.Some? <==> !IsNullOrBlank(envFile) || !IsNullOrBlank(envJson)
    ensures r.Some? ==> !IsBlank(r.value) && (r == envFile || r == envJson)
    ensures !IsNullOrBlank(envFile) ==> r == envFile
  {
    if !IsNullOrBlank(envFile) then envFile
    else if !IsNullOrBlank(envJson) then envJson
    else None
  }

  /**
   * What injecting the environment from `path` leaves: the variables and the files
   * afterwards, or the exception raised. A file that never appeared is `UnableToStartIntercept`;
   * a failed load changes nothing; otherwise the file's pairs, then the overrides, are
   * assigned and the file is deleted.
   */
  function Injection(files: map<string, string>, vars: map<string, string>, path: string, attempts: seq<OpenAttempt>,
                     parse: string -> Parsed<seq<Pair>>, included: Option<seq<Pair>>, excluded: Option<seq<string>>)
    : (r: Result<(map<string, string>, map<string, string>), Fault>)
    ensures path !in files ==> r == Failure(InvalidOperation(UnableToStartIntercept))
    ensures r.Success? ==> path in files && path !in r.value.1 && forall f :: f in files && f != path ==> f in r.value.1 && r.value.1[f] == files[f]
    ensures r.Failure? && path in files ==> FileEntries(files, path, attempts, parse) == Failure(r.error)
  {
    if path !in files then Failure(InvalidOperation(UnableToStartIntercept))
    else match FileEntries(files, path, attempts, parse)
      case Failure(e) => Failure(e)
      case Success(entries) => Success((Applied(Applied(vars, entries), Overrides(included, excluded)), files - {path}))
  }

  /** A variable the file sets keeps the file's value unless an override that is not excluded names it. */
  lemma InjectionPrecedence(files: map<string, string>, vars: map<string, string>, path: string, attempts: seq<OpenAttempt>,
                            parse: string -> Parsed<seq<Pair>>, included: Option<seq<Pair>>, excluded: Option<seq<string>>, key: string)
    requires Injection(files, vars, path, attempts, parse, included, excluded).Success?
    ensures var entries := FileEntries(files, path, attempts, parse).value;
      var after := Injection(files, vars, path, attempts, parse, included, excluded).value.0;
      && (excluded.Some? && key in excluded.value ==> Lookup(after, key) == Lookup(Applied(vars, entries), key))
      && (included.Some? && (excluded.None? || key !in excluded.value) && LastValue(included.value, key).Some? ==>
            Lookup(after, key) == LastValue(included.value, key))
  {
    var entries := FileEntries(files, path, attempts, parse).value;
    var o := Overrides(included, excluded);
    var loaded := Applied(vars, entries);
    AppliedLookup(loaded, o, key);
    if excluded.Some? && key in excluded.value {
      if included.Some? && |included.value| > 0 && |excluded.value| > 0 {
        NoLastValue(o, key);
      }
    }
    if included.Some? && (excluded.None? || key !in excluded.value) && LastValue(included.value, key).Some? {
      if |included.value| > 0 && excluded.Some? && |excluded.value| > 0 {
        WithoutLastValue(included.value, excluded.value, key);
      }
    }
  }

  /**
   * Exclusion filters only the overrides: with no `IncludeEnvironment`, a variable named in
   * `ExcludeEnvironment` is still imported from the file.
   */
  lemma ExcludedStillImported(files: map<string, string>, vars: map<string, string>, path: string, attempts: seq<OpenAttempt>,
                              parse: string -> Parsed<seq<Pair>>, excluded: seq<string>)
    requires Injection(files, vars, path, attempts, parse, None, Some(excluded)).Success?
    ensures Injection(files, vars, path, attempts, parse, None, Some(excluded)).value.0
         == Applied(vars, FileEntries(files, path, attempts, parse).value)
  {
  }

  /** The injection branch: wait for the file, check it, load it, apply the overrides, delete it. */
  method Inject(path: string, fs: FileSystem, env: Environment, checks: seq<bool>, attempts: seq<OpenAttempt>,
                parse: string -> Parsed<seq<Pair>>, included: Option<seq<Pair>>, excluded: Option<seq<string>>)
    returns (o: Outcome<Fault>)
    modifies fs`files, env
    ensures var r := Injection(old(fs.files), old(env.vars), path, attempts, parse, included, excluded);
      && (r.Failure? ==> o == Fail(r.error) && fs.files == old(fs.files) && env.vars == old(env.vars))
      && (r.Success? ==> o == Pass && env.vars == r.value.0 && fs.files == r.value.1)
  {
    var _, _ := WaitForOutputFile(checks);
    if !fs.Exists(path) {
      return Fail(InvalidOperation(UnableToStartIntercept));
    }
    o := LoadEnvironmentFromFile(path, fs, env, attempts, parse);
    if o.Fail? {
      return;
    }
    if included.Some? && |included.value| > 0 {
      if excluded.None? || |excluded.value| == 0 {
        env.SetAll(included.value);
      } else {
        env.SetAll(Without(included.value, excluded.value));
      }
    }
    if fs.Exists(path) {
      fs.Delete(path);
    }
  }

  /** The script a runner has left after one more run. */
  function AfterRun(script: seq<RunOutcome>): seq<RunOutcome> {
    if script == [] then [] else script[1..]
  }

  /** The values of the recorded properties, by storage shape. */
  datatype Settings = Settings(texts: map<Property, string>, switches: map<Property, bool>, numbers: map<Property, int>,
                               pairs: map<Property, seq<Pair>>, toPod: Option<seq<string>>)

  /** The words a property's setting records in the dictionary, if it is set. */
  function Words(s: Settings, p: Property): Option<seq<string>> {
    match ShapeOf(p)
    case TextShape => if p in s.texts then Some([FlagOf(p), s.texts[p]]) else None
    case SwitchShape => if p in s.switches then Some([FlagOf(p)]) else None
    case NumberShape => if p in s.numbers then Some([FlagOf(p), DecimalString(s.numbers[p])]) else None
    case PairsShape => if p in s.pairs then Some(PairWords(p, s.pairs[p])) else None
    case ListShape => if s.toPod.Some? then Some(Repeated("--to-pod", NonBlank(s.toPod.value))) else None
    case Unrecorded => None
  }

  /** The dictionary holds exactly the words of the settings. */
  predicate Mirrors(args: Table<Property>, s: Settings) {
    forall p :: Find(args, p) == Words(s, p)
  }

  /** The two settings differ at most in `key`. */
  predicate SameElsewhere(s: Settings, s': Settings, key: Property) {
    && s'.texts - {key} == s.texts - {key}
    && s'.switches - {key} == s.switches - {key}
    && s'.numbers - {key} == s.numbers - {key}
    && s'.pairs - {key} == s.pairs - {key}
    && (key != ToPod ==> s'.toPod == s.toPod)
  }

  /** A property other than `key` records the same words in both settings. */
  lemma WordsElsewhere(s: Settings, s': Settings, key: Property, p: Property)
    requires SameElsewhere(s, s', key) && p != key
    ensures Words(s', p) == Words(s, p)
  {
    match ShapeOf(p)
    case TextShape =>
      assert p in s'.texts <==> p in s'.texts - {key};
      assert p in s.texts <==> p in s.texts - {key};
    case SwitchShape =>
      assert p in s'.switches <==> p in s'.switches - {key};
      assert p in s.switches <==> p in s.switches - {key};
    case NumberShape =>
      assert p in s'.numbers <==> p in s'.numbers - {key};
      assert p in s.numbers <==> p in s.numbers - {key};
    case PairsShape =>
      assert p in s'.pairs <==> p in s'.pairs - {key};
      assert p in s.pairs <==> p in s.pairs - {key};
    case ListShape =>
    case Unrecorded =>
  }

  /** Reassigning one property's entry to its new words keeps the dictionary a mirror of the settings. */
  lemma Reassigned(args: Table<Property>, args': Table<Property>, s: Settings, s': Settings, key: Property)
    requires Mirrors(args, s) && SameElsewhere(s, s', key)
    requires forall k :: Find(args', k) == if k == key then Words(s', key) else Find(args, k)
    ensures Mirrors(args', s')
  {
    forall p ensures Find(args', p) == Words(s', p) {
      if p != key {
        WordsElsewhere(s, s', key, p);
      }
    }
  }

  class Intercept {
    /** `_arguments` */
    var arguments: Table<Property>
    /** The text properties that were set. */
    var texts: map<Property, string>
    /** The `bool?` properties that were set. */
    var switches: map<Property, bool>
    /** `IngressPort` and `LocalMountPort`, when set. */
    var numbers: map<Property, int>
    /** The key/value pair lists that were set. */
    var pairs: map<Property, seq<Pair>>
    /** `_toPod` */
    var toPod: Option<seq<string>>
    /** `_name` */
    var name: Option<string>
    /** `_injectEnvironment`, `IncludeEnvironment`, `ExcludeEnvironment` */
    var injectEnvironment: Option<bool>
    var includeEnvironment: Option<seq<Pair>>
    var excludeEnvironment: Option<seq<string>>

    /** The current settings. */
    function Current(): Settings
      reads this
    {
      Settings(texts, switches, numbers, pairs, toPod)
    }

    /** The words a property should have in the dictionary. */
    function Stored(p: Property): Option<seq<string>>
      reads this
    {
      Words(Current(), p)
    }

    /** A text property's value, if set. */
    function TextOf(p: Property): Option<string>
      reads this
    {
      if p in texts then Some(texts[p]) else None
    }

    /** The dictionary mirrors the properties: a set property's entry holds its words and an unset one has none. */
    predicate Valid()
      reads this
    {
      UniqueKeys(arguments) && Mirrors(arguments, Current())
    }

    /** `new Intercept()` */
    constructor ()
      ensures Valid()
      ensures arguments == [] && texts == map[] && switches == map[] && numbers == map[] && pairs == map[]
      ensures toPod == None && name == None
      ensures injectEnvironment == None && includeEnvironment == None && excludeEnvironment == None
    {
      arguments := [];
      texts := map[];
      switches := map[];
      numbers := map[];
      pairs := map[];
      toPod := None;
      name := None;
      injectEnvironment := None;
      includeEnvironment := None;
      excludeEnvironment := None;
    }

    /** `new Intercept(name)`: the constructor assigns `Name`, which may throw. */
    static method Create(value: Option<string>) returns (c: Intercept, o: Outcome<Fault>)
      ensures fresh(c) && c.Valid() && c.arguments == []
      ensures o == CheckInterceptName(value)
      ensures c.name == if o.Pass? then value else None
    {
      c := new Intercept();
      o := c.InitName(value);
    }

    /** `_arguments[key] = values`, where `values` are the new words of `key`'s setting. */
    method Put(key: Property, values: seq<string>, ghost before: Settings)
      requires UniqueKeys(arguments) && Mirrors(arguments, before)
      requires SameElsewhere(before, Current(), key) && Words(Current(), key) == Some(values)
      modifies this`arguments
      ensures Valid()
      ensures arguments == Upserted(old(arguments), key, values)
    {
      ghost var t := arguments;
      arguments := Upserted(arguments, key, values);
      UpsertedUnique(t, key, values);
      forall k ensures Find(arguments, k) == if k == key then Words(Current(), key) else Find(t, k) {
        UpsertedFind(t, key, values, k);
      }
      Reassigned(t, arguments, before, Current(), key);
    }

    /** `_arguments.Remove(key)`, where `key`'s setting is now unset. */
    method Drop(key: Property, ghost before: Settings)
      requires UniqueKeys(arguments) && Mirrors(arguments, before)
      requires SameElsewhere(before, Current(), key) && Words(Current(), key) == None
      modifies this`arguments
      ensures Valid()
      ensures arguments == Removed(old(arguments), key)
    {
      ghost var t := arguments;
      arguments := Removed(arguments, key);
      RemovedUnique(t, key);
      forall k ensures Find(arguments, k) == if k == key then Words(Current(), key) else Find(t, k) {
        RemovedFind(t, key, k);
      }
      Reassigned(t, arguments, before, Current(), key);
    }

    /** A text setter: `null` clears the property and its entry, anything else records `flag, value`. */
    method SetText(p: PlainText, value: Option<string>)
      requires Valid()
      modifies this`arguments, this`texts
      ensures Valid()
      ensures value.None? ==> texts == old(texts) - {p} && arguments == Removed(old(arguments), p)
      ensures value.Some? ==> texts == old(texts)[p := value.value] && arguments == Upserted(old(arguments), p, [FlagOf(p), value.value])
    {
      if value.None? {
        texts := texts - {p};
        Drop(p, old(Current()));
      } else {
        texts := texts[p := value.value];
        Put(p, [FlagOf(p), value.value], old(Current()));
      }
    }

    /** `Address`: `null` clears it; otherwise it must look like an IPv4 address or hold a placeholder. */
    method SetAddress(value: Option<string>) returns (o: Outcome<Fault>)
      requires Valid()
      modifies this`arguments, this`texts
      ensures Valid()
      ensures o == if value.None? then Pass else CheckAddress(value.value)
      ensures o.Fail? ==> arguments == old(arguments) && texts == old(texts)
      ensures value.None? ==> texts == old(texts) - {Address} && arguments == Removed(old(arguments), Address)
      ensures o.Pass? && value.Some? ==>
        texts == old(texts)[Address := value.value] && arguments == Upserted(old(arguments), Address, ["--address", value.value])
    {
      if value.None? {
        texts := texts - {Address};
        Drop(Address, old(Current()));
      } else {
        o := CheckAddress(value.value);
        if o.Fail? {
          return;
        }
        texts := texts[Address := value.value];
        Put(Address, ["--address", value.value], old(Current()));
      }
      return Pass;
    }

    /** A `bool?` setter: any value, `false` included, records the bare flag. */
    method SetSwitch(p: Switch, value: Option<bool>)
      requires Valid()
      modifies this`arguments, this`switches
      ensures Valid()
      ensures value.None? ==> switches == old(switches) - {p} && arguments == Removed(old(arguments), p)
      ensures value.Some? ==> switches == old(switches)[p := value.value] && arguments == Upserted(old(arguments), p, [FlagOf(p)])
    {
      if value.None? {
        switches := switches - {p};
        Drop(p, old(Current()));
      } else {
        switches := switches[p := value.value];
        Put(p, [FlagOf(p)], old(Current()));
      }
    }

    /** `IngressPort` / `LocalMountPort`: no validation beyond the type; recorded as `value.ToString()`. */
    method SetNumber(p: Property, value: Option<int>)
      requires Valid() && IsNumber(p)
      requires value.Some? ==> Representable(p, value.value)
      modifies this`arguments, this`numbers
      ensures Valid()
      ensures value.None? ==> numbers == old(numbers) - {p} && arguments == Removed(old(arguments), p)
      ensures value.Some? ==>
        numbers == old(numbers)[p := value.value] && arguments == Upserted(old(arguments), p, [FlagOf(p), DecimalString(value.value)])
    {
      if value.None? {
        numbers := numbers - {p};
        Drop(p, old(Current()));
      } else {
        numbers := numbers[p := value.value];
        Put(p, [FlagOf(p), DecimalString(value.value)], old(Current()));
      }
    }

    /** Stores a checked pair list and records its words. */
    method StorePairs(p: PairList, value: Option<seq<Pair>>, words: seq<string>)
      requires Valid()
      requires value.Some? ==> words == PairWords(p, value.value)
      modifies this`arguments, this`pairs
      ensures Valid()
      ensures value.None? ==> pairs == old(pairs) - {p} && arguments == Removed(old(arguments), p)
      ensures value.Some? ==> pairs == old(pairs)[p := value.value] && arguments == Upserted(old(arguments), p, words)
    {
      if value.None? {
        pairs := pairs - {p};
        Drop(p, old(Current()));
      } else {
        pairs := pairs[p := value.value];
        Put(p, words, old(Current()));
      }
    }

    /**
     * `DockerBuildOptions`, `HttpHeader`, `HttpMeta`, `PreviewUrlAddRequestHeaders`: `null`
     * clears the list; build options need `DockerBuild` to have been set before them; an empty
     * list is out of range.
     */
    method SetPairs(p: PairList, value: Option<seq<Pair>>) returns (o: Outcome<Fault>)
      requires Valid()
      modifies this`arguments, this`pairs
      ensures Valid()
      ensures o.Fail? <==> value.Some? && ((p.DockerBuildOptions? && DockerBuild !in texts) || |value.value| == 0)
      ensures o.Fail? && p.DockerBuildOptions? && DockerBuild !in texts ==> o.error == ArgumentNull("DockerBuild")
      ensures o.Fail? && (!p.DockerBuildOptions? || DockerBuild in texts) ==> o.error == ArgumentOutOfRange(PairListName(p))
      ensures o.Fail? ==> arguments == old(arguments) && pairs == old(pairs)
      ensures value.None? ==> pairs == old(pairs) - {p} && arguments == Removed(old(arguments), p)
      ensures o.Pass? && value.Some? ==>
        pairs == old(pairs)[p := value.value] && arguments == Upserted(old(arguments), p, PairWords(p, value.value))
    {
      if value.None? {
        StorePairs(p, value, []);
        return Pass;
      }
      if p.DockerBuildOptions? && DockerBuild !in texts {
        return Fail(ArgumentNull("DockerBuild"));
      }
      if |value.value| == 0 {
        return Fail(ArgumentOutOfRange(PairListName(p)));
      }
      var assignments := Assignments(NonBlankValued(value.value));
      var words;
      if p.PreviewUrlAddRequestHeaders? {
        words := [FlagOf(p), Join(',', assignments)];
      } else {
        words := BuildRepeated(FlagOf(p), assignments);
      }
      StorePairs(p, value, words);
      return Pass;
    }

    /** `ToPod`: an empty list is out of range; each non-blank port records `--to-pod, port`. */
    method SetToPod(value: Option<seq<string>>) returns (o: Outcome<Fault>)
      requires Valid()
      modifies this`arguments, this`toPod
      ensures Valid()
      ensures o.Fail? <==> value.Some? && |value.value| == 0
      ensures o.Fail? ==> o.error == ArgumentOutOfRange("ToPod") && arguments == old(arguments) && toPod == old(toPod)
      ensures o.Pass? ==> toPod == value
      ensures value.None? ==> arguments == Removed(old(arguments), ToPod)
      ensures o.Pass? && value.Some? ==> arguments == Upserted(old(arguments), ToPod, Repeated("--to-pod", NonBlank(value.value)))
    {
      if value.Some? && |value.value| == 0 {
        return Fail(ArgumentOutOfRange("ToPod"));
      }
      toPod := value;
      if value.None? {
        Drop(ToPod, old(Current()));
      } else {
        var words := BuildRepeated("--to-pod", NonBlank(value.value));
        Put(ToPod, words, old(Current()));
      }
      return Pass;
    }

    /**
     * `InjectEnvironment`: stored only. `null` also removes the property's dictionary entry,
     * which was never recorded, so the command line is unchanged either way.
     */
    method SetInjectEnvironment(value: Option<bool>)
      requires Valid()
      modifies this`arguments, this`injectEnvironment
      ensures Valid()
      ensures injectEnvironment == value && arguments == old(arguments)
    {
      injectEnvironment := value;
      if value.None? {
        assert Find(arguments, InjectEnvironment).None?;
        Drop(InjectEnvironment, old(Current()));
      }
    }

    /** `IncludeEnvironment { get; init; }` */
    method SetIncludeEnvironment(value: Option<seq<Pair>>)
      requires Valid()
      modifies this`includeEnvironment
      ensures Valid() && includeEnvironment == value
    {
      includeEnvironment := value;
    }

    /** `ExcludeEnvironment { get; init; }` */
    method SetExcludeEnvironment(value: Option<seq<string>>)
      requires Valid()
      modifies this`excludeEnvironment
      ensures Valid() && excludeEnvironment == value
    {
      excludeEnvironment := value;
    }

    /** `Name` init: checked and stored; unlike every other property it records no words. */
    method InitName(value: Option<string>) returns (o: Outcome<Fault>)
      requires Valid()
      modifies this`name
      ensures Valid()
      ensures o == CheckInterceptName(value)
      ensures name == if o.Pass? then value else old(name)
    {
      o := CheckInterceptName(value);
      if o.Pass? {
        name := value;
      }
    }

    /**
     * `Leave`: run `telepresence leave <Name>` (with `--use` when `Use` is set). Reading `Name`
     * may throw before anything starts; every exception is caught.
     */
    method Leave(entryAssemblyName: Option<string>, runner: CommandRunner) returns (caught: Option<Fault>)
      modifies runner
      ensures var n := SpecEntities.MemoName(name, entryAssemblyName);
        && (n.Failure? ==> caught == Some(n.error) && unchanged(runner))
        && (n.Success? ==>
              && runner.started == old(runner.started) + [LeaveCommand(n.value, TextOf(Use))]
              && runner.script == AfterRun(old(runner.script))
              && caught == (if NextOutcome(old(runner.script)).Threw? then Some(NextOutcome(old(runner.script)).fault) else None))
    {
      var n := SpecEntities.MemoName(name, entryAssemblyName);
      if n.Failure? {
        return Some(n.error);
      }
      var outcome := runner.Run(LeaveCommand(n.value, TextOf(Use)));
      caught := if outcome.Threw? then Some(outcome.fault) else None;
    }

    /** Runs `telepresence intercept <name>` followed by every recorded word. */
    method RunIntercept(n: string, runner: CommandRunner) returns (outcome: RunOutcome)
      modifies runner
      ensures runner.started == old(runner.started) + [["intercept", n] + Flatten(arguments)]
      ensures runner.script == AfterRun(old(runner.script))
      ensures outcome == NextOutcome(old(runner.script))
    {
      var line := CommandLine(["intercept", n], arguments);
      outcome := runner.Run(line);
    }

    /**
     * `Start`: when `InjectEnvironment` is `true`, leave first so the command writes a fresh
     * environment file; run the intercept; then, when asked to and an output file is named,
     * inject its environment. Every exception is caught.
     */
    method Start(entryAssemblyName: Option<string>, runner: CommandRunner, fs: FileSystem, env: Environment,
                 checks: seq<bool>, attempts: seq<OpenAttempt>, parse: string -> Parsed<seq<Pair>>)
      returns (caught: Option<Fault>)
      modifies runner, fs`files, env
      ensures var n := SpecEntities.MemoName(name, entryAssemblyName);
        var inject := injectEnvironment == Some(true);
        var script := if inject && n.Success? then AfterRun(old(runner.script)) else old(runner.script);
        var outcome := NextOutcome(script);
        var path := InjectionPath(TextOf(EnvFile), TextOf(EnvJson));
        var r := Injection(old(fs.files), old(env.vars), path.GetOr(""), attempts, parse, includeEnvironment, excludeEnvironment);
        && (n.Failure? ==> caught == Some(n.error) && runner.started == old(runner.started))
        && (n.Success? ==>
              runner.started == old(runner.started)
                                + (if inject then [LeaveCommand(n.value, TextOf(Use))] else [])
                                + [["intercept", n.value] + Flatten(arguments)])
        && (n.Success? && outcome.Threw? ==> caught == Some(outcome.fault))
        && (n.Failure? || outcome.Threw? || !inject || path.None? ==> fs.files == old(fs.files) && env.vars == old(env.vars))
        && (n.Success? && outcome.Exited? && !(inject && path.Some?) ==> caught == None)
        && (n.Success? && outcome.Exited? && inject && path.Some? ==>
              && (r.Failure? ==> caught == Some(r.error) && fs.files == old(fs.files) && env.vars == old(env.vars))
              && (r.Success? ==> caught == None && env.vars == r.value.0 && fs.files == r.value.1))
    {
      if injectEnvironment == Some(true) {
        var _ := Leave(entryAssemblyName, runner);
      }
      var n := SpecEntities.MemoName(name, entryAssemblyName);
      if n.Failure? {
        return Some(n.error);
      }
      var outcome := RunIntercept(n.value, runner);
      if outcome.Threw? {
        return Some(outcome.fault);
      }
      caught := None;
      if injectEnvironment == Some(true) {
        var path := InjectionPath(TextOf(EnvFile), TextOf(EnvJson));
        if path.Some? {
          var o := Inject(path.value, fs, env, checks, attempts, parse, includeEnvironment, excludeEnvironment);
          if o.Fail? {
            caught := Some(o.error);
          }
        }
      }
    }
  }

  /** Every property that is set stands, as its own words, on the `intercept` command line. */
  lemma StoredOnInterceptLine(c: Intercept, p: Property)
    requires c.Valid() && c.Stored(p).Some?
    ensures exists before, after :: Flatten(c.arguments) == before + c.Stored(p).value + after
  {
    var t := c.arguments;
    assert Find(t, p) == c.Stored(p);
    FoundOnCommandLine(t, p);
    var i :| 0 <= i < |t| && t[i] == (p, Find(t, p).value) && Flatten(t) == Flatten(t[..i]) + t[i].1 + Flatten(t[i + 1..]);
    assert Flatten(t) == Flatten(t[..i]) + c.Stored(p).value + Flatten(t[i + 1..]);
  }
}
