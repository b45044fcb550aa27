/**
 * The command-line `Connection` (the files of `Connection/`): every `init` accessor validates its
 * value and records its command-line words in the argument dictionary under the property's
 * own name; `Connect` runs `telepresence connect` with all recorded words, guarded by the
 * connected flag, and `Quit`/`Disconnect` run `telepresence quit`.
 */
module CommandLineConnection {
  import opened Wrappers
  import opened Text
  import opened Constants
  import opened Patterns
  import opened Validation
  import opened Arguments
  import opened Host

  /** The properties of the command-line connection; each keys its own dictionary entry. */
  datatype Property =
    | AllowConflictingSubnets | AlsoProxy | Docker | Expose | Hostname | ManagerNamespace
    | MappedNamespaces | Name | Namespace | NeverProxy
    | As | AsGroups | AsUID | CacheDirectory | CertificateAuthority | ClientCertificate
    | ClientKey | Cluster | Context | DisableCompression | InsecureSkipTlsVerify | KubeConfig
    | RequestTimeout | Server | TlsServerName | Token | User

  /** The command-line spelling each property records. */
  function FlagOf(p: Property): string {
    match p
    case AllowConflictingSubnets => "--allow-conflicting-subnets"
    case AlsoProxy => "--also-proxy"
    case Docker => "--docker"
    case Expose => "--expose"
    case Hostname => "--hostname"
    case ManagerNamespace => "--manager-namespace"
    case MappedNamespaces => "--mapped-namespaces"
    case Name => "--name"
    case Namespace => "--namespace"
    case NeverProxy => "--never-proxy"
    case As => "--as"
    case AsGroups => "--as-group"
    case AsUID => "--as-uid"
    case CacheDirectory => "--cache-dir"
    case CertificateAuthority => "--certificate-authority"
    case ClientCertificate => "--client-certificate"
    case ClientKey => "--client-key"
    case Cluster => "--cluster"
    case Context => "--context"
    case DisableCompression => "--disable-compression"
    case InsecureSkipTlsVerify => "--insecure-skip-tls-verify"
    case KubeConfig => "--kubeconfig"
    case RequestTimeout => "--request-timeout"
    case Server => "--server"
    case TlsServerName => "--tls-server-name"
    case Token => "--token"
    case User => "--user"
  }

  /** How a property is stored and what it records. */
  datatype Shape =
    /** One string, recorded as `flag, value`. */
    | TextShape
    /** A `bool?`, recorded as the bare flag whatever the value. */
    | SwitchShape
    /** A list of strings. */
    | ListShape
    /** `Name`, `Namespace`, `Context`: their getters memoise a default without recording it. */
    | MemoShape

  function ShapeOf(p: Property): Shape {
    match p
    case Docker | DisableCompression | InsecureSkipTlsVerify => SwitchShape
    case AllowConflictingSubnets | AlsoProxy | NeverProxy | MappedNamespaces | Expose | AsGroups => ListShape
    case Name | Namespace | Context => MemoShape
    case _ => TextShape
  }

  predicate IsText(p: Property) { ShapeOf(p) == TextShape }

  /** The text properties without validation. */
  type PlainText = p: Property | IsText(p) && !p.ManagerNamespace? witness As

  predicate IsSwitch(p: Property) { ShapeOf(p) == SwitchShape }

  type Switch = p: Property | IsSwitch(p) witness Docker

  predicate IsList(p: Property) { ShapeOf(p) == ListShape }

  /** The CIDR lists, which must be non-empty and are recorded as one comma-joined word. */
  type CidrList = p: Property | p.AllowConflictingSubnets? || p.AlsoProxy? || p.NeverProxy? witness AlsoProxy

  predicate IsMemoised(p: Property) { ShapeOf(p) == MemoShape }

  /** The words a list-valued property records for `items`. */
  function ListArguments(p: Property, items: seq<string>): (r: seq<string>)
    requires IsList(p)
    ensures p.Expose? ==> |r| == 2 * |NonBlank(items)|
    ensures p.AsGroups? ==> |r| == 2 * |items|
    ensures !p.Expose? && !p.AsGroups? ==> |r| == 2 && r[0] == FlagOf(p) && r[1] == JoinedNonBlank(items)
  {
    if p.Expose? then Repeated(FlagOf(p), NonBlank(items))
    else if p.AsGroups? then Repeated(FlagOf(p), items)
    else [FlagOf(p), JoinedNonBlank(items)]
  }

  /** One `--expose` per non-blank port; one `--as-group` per group, blank ones included. */
  lemma ListArgumentsAt(p: Property, items: seq<string>, i: nat)
    requires p.Expose? || p.AsGroups?
    requires i < (if p.Expose? then |NonBlank(items)| else |items|)
    ensures ListArguments(p, items)[2 * i] == FlagOf(p)
    ensures ListArguments(p, items)[2 * i + 1] == (if p.Expose? then NonBlank(items)[i] else items[i])
  {
    if p.Expose? {
      RepeatedAt(FlagOf(p), NonBlank(items), i);
    } else {
      RepeatedAt(FlagOf(p), items, i);
    }
  }

  /** The `ManagerNamespace` check: the length first, then `^[a-z0-9][a-z0-9-]*$|\{\{`; no blank check. */
  function CheckManagerNamespace(value: string): (r: Outcome<Fault>)
    ensures r == Pass <==> |value| <= 64 && (IsLabel(value) || HasPlaceholder(value))
    ensures |value| > 64 ==> r == Fail(InvalidOperation(CantExceed64Characters))
    ensures r.Fail? && |value| <= 64 ==> r == Fail(InvalidOperation(AlphaNumericWithHyphens))
  {
    if |value| > 64 then Fail(InvalidOperation(CantExceed64Characters))
    else if !(IsLabel(value) || HasPlaceholder(value)) then Fail(InvalidOperation(AlphaNumericWithHyphens))
    else Pass
  }

  /** An empty manager namespace is a pattern failure, not a missing argument. */
  lemma EmptyManagerNamespace()
    ensures CheckManagerNamespace("") == Fail(InvalidOperation(AlphaNumericWithHyphens))
  {
    assert !Contains("", "{{");
  }

  /** The `MappedNamespaces` check: any element over 64 characters, then any element off `^[a-z0-9][a-z0-9-]$|\{\{`. */
  function CheckMappedNamespaces(values: seq<string>): (r: Outcome<Fault>)
    ensures r == Pass <==> forall i :: 0 <= i < |values| ==> |values[i]| <= 64 && (IsTwoCharLabel(values[i]) || HasPlaceholder(values[i]))
    ensures r == Fail(InvalidOperation(CantExceed64Characters)) <==> exists i :: 0 <= i < |values| && |values[i]| > 64
    ensures r.Fail? ==> r.error == InvalidOperation(CantExceed64Characters) || r.error == InvalidOperation(AlphaNumericWithHyphens)
  {
    if exists i :: 0 <= i < |values| && |values[i]| > 64 then Fail(InvalidOperation(CantExceed64Characters))
    else if exists i :: 0 <= i < |values| && !(IsTwoCharLabel(values[i]) || HasPlaceholder(values[i])) then
      Fail(InvalidOperation(AlphaNumericWithHyphens))
    else Pass
  }

  /** The pattern has no repetition, so a three-letter namespace is refused; an empty list passes and records an empty word. */
  lemma MappedNamespacesExamples()
    ensures CheckMappedNamespaces(["dev"]) == Fail(InvalidOperation(AlphaNumericWithHyphens))
    ensures CheckMappedNamespaces(["qa", "{{ns}}"]) == Pass
    ensures CheckMappedNamespaces([]) == Pass
    ensures ListArguments(MappedNamespaces, []) == ["--mapped-namespaces", ""]
  {
    TwoCharLabelLength("dev");
    NoBraceNoPlaceholder("dev");
    var dev := ["dev"];
    assert !(IsTwoCharLabel(dev[0]) || HasPlaceholder(dev[0]));
    assert forall i :: 0 <= i < |dev| ==> |dev[i]| <= 64;
    assert "{{ns}}"[0..2] == "{{";
    assert HasPlaceholder("{{ns}}");
    assert TwoCharLabelBody("qa");
  }

  /** `Name` init: not blank, at most 64 characters, `^[a-z][a-z0-9-]*$`. */
  function CheckConnectionName(value: Option<string>): (r: Outcome<Fault>)
    ensures r == Pass <==> value.Some? && !IsBlank(value.value) && |value.value| <= 64 && IsLowerName(value.value)
    ensures IsNullOrBlank(value) ==> r == Fail(ArgumentNull("Name"))
  {
    CheckName("Name", value, true, value.Some? && IsLowerName(value.value), AlphaNumericWithHyphens)
  }

  /** `Namespace` init: not blank, at most 64 characters, `^[a-z0-9][a-z0-9-]*$|\{\{`. */
  function CheckNamespace(value: Option<string>): (r: Outcome<Fault>)
    ensures r == Pass <==> value.Some? && !IsBlank(value.value) && |value.value| <= 64 && (IsLabel(value.value) || HasPlaceholder(value.value))
    ensures IsNullOrBlank(value) ==> r == Fail(ArgumentNull("Namespace"))
  {
    CheckName("Namespace", value, true, value.Some? && (IsLabel(value.value) || HasPlaceholder(value.value)), AlphaNumericWithHyphens)
  }

  /** `Context` init: only a blank value is refused. */
  function CheckContext(value: Option<string>): (r: Outcome<Fault>)
    ensures r == Pass <==> !IsNullOrBlank(value)
    ensures r.Fail? ==> r.error == ArgumentNull("Context")
  {
    if IsNullOrBlank(value) then Fail(ArgumentNull("Context")) else Pass
  }

  /** What the local kubeconfig file says (`BuildConfigFromConfigFile()`); either may be absent. */
  datatype KubeConfigFile = KubeConfigFile(currentContext: Option<string>, namespace: Option<string>)

  /** `$"{Context}-{Namespace}"`, where an absent value interpolates as nothing. */
  function DefaultName(context: Option<string>, namespace: Option<string>): (r: string)
    ensures |r| == |context.GetOr("")| + 1 + |namespace.GetOr("")|
    ensures r[|context.GetOr("")|] == '-'
  {
    context.GetOr("") + "-" + namespace.GetOr("")
  }

  /** `["quit"]`, with `--stop-daemons` exactly when the daemons are stopped too. */
  function QuitCommand(stopDaemons: bool): (r: seq<string>)
    ensures |r| >= 1 && r[0] == "quit"
    ensures "--stop-daemons" in r <==> stopDaemons
  {
    if stopDaemons then ["quit", "--stop-daemons"] else ["quit"]
  }

  /** The values of the recorded properties, by storage shape, and the three memoised ones. */
  datatype Settings = Settings(texts: map<Property, string>, switches: map<Property, bool>, lists: map<Property, seq<string>>,
                               name: Option<string>, namespace: Option<string>, context: Option<string>)

  /** The words a property that is not memoised records in the dictionary, if it is set. */
  function Words(s: Settings, p: Property): Option<seq<string>> {
    match ShapeOf(p)
    case TextShape => if p in s.texts then Some([FlagOf(p), s.texts[p]]) else None
    case SwitchShape => if p in s.switches then Some([FlagOf(p)]) else None
    case ListShape => if p in s.lists then Some(ListArguments(p, s.lists[p])) else None
    case MemoShape => None
  }

  /** The value a memoised property holds. */
  function Memo(s: Settings, p: Property): Option<string> {
    match p
    case Name => s.name
    case Namespace => s.namespace
    case Context => s.context
    case _ => None
  }

  /**
   * The dictionary entry agrees with the setting: a stored property's entry holds its words
   * and an unset one has none; a memoised property has an entry only when it was initialised,
   * and then with its value.
   */
  predicate Agrees(args: Table<Property>, s: Settings, p: Property) {
    if IsMemoised(p) then Find(args, p).None? || (Memo(s, p).Some? && Find(args, p) == Some([FlagOf(p), Memo(s, p).value]))
    else Find(args, p) == Words(s, p)
  }

  predicate Mirrors(args: Table<Property>, s: Settings) {
    forall p :: Agrees(args, s, p)
  }

  /** The two settings differ at most in `key`. */
  predicate SameElsewhere(s: Settings, s': Settings, key: Property) {
    && s'.texts - {key} == s.texts - {key}
    && s'.switches - {key} == s.switches - {key}
    && s'.lists - {key} == s.lists - {key}
    && (key != Name ==> s'.name == s.name)
    && (key != Namespace ==> s'.namespace == s.namespace)
    && (key != Context ==> s'.context == s.context)
  }

  /** Changing one property, and at most its entry, keeps the dictionary a mirror once that entry agrees. */
  lemma Reassigned(args: Table<Property>, args': Table<Property>, s: Settings, s': Settings, key: Property)
    requires Mirrors(args, s) && SameElsewhere(s, s', key)
    requires forall k :: k != key ==> Find(args', k) == Find(args, k)
    requires Agrees(args', s', key)
    ensures Mirrors(args', s')
  {
    forall p ensures Agrees(args', s', p) {
      if p != key {
        assert Agrees(args, s, p);
        assert p in s'.texts <==> p in s'.texts - {key};
        assert p in s.texts <==> p in s.texts - {key};
        assert p in s'.switches <==> p in s'.switches - {key};
        assert p in s.switches <==> p in s.switches - {key};
        assert p in s'.lists <==> p in s'.lists - {key};
        assert p in s.lists <==> p in s.lists - {key};
        assert Words(s', p) == Words(s, p) && Memo(s', p) == Memo(s, p);
      }
    }
  }

  class Connection {
    /** `_arguments` */
    var arguments: Table<Property>
    /** The text properties that were set. */
    var texts: map<Property, string>
    /** The `bool?` properties that were set. */
    var switches: map<Property, bool>
    /** The list properties that were set. */
    var lists: map<Property, seq<string>>
    /** `_name`, `_namespace`, `_context` */
    var name: Option<string>
    var namespace: Option<string>
    var context: Option<string>
    /** `_connected` */
    var connected: bool

    /** The current settings. */
    function Current(): Settings
      reads this
    {
      Settings(texts, switches, lists, name, namespace, context)
    }

    /** The words a property that is not memoised should have in the dictionary. */
    function Stored(p: Property): Option<seq<string>>
      reads this
    {
      Words(Current(), p)
    }

    predicate Valid()
      reads this
    {
      UniqueKeys(arguments) && Mirrors(arguments, Current())
    }

    /** `new Connection()` */
    constructor ()
      ensures Valid()
      ensures arguments == [] && texts == map[] && switches == map[] && lists == map[]
      ensures name == None && namespace == None && context == None && !connected
    {
      arguments := [];
      texts := map[];
      switches := map[];
      lists := map[];
      name := None;
      namespace := None;
      context := None;
      connected := false;
    }

    /** `new Connection(name)`: the constructor assigns `Name`, which may throw. */
    static method Create(value: Option<string>) returns (c: Connection, o: Outcome<Fault>)
      ensures fresh(c) && c.Valid() && !c.connected
      ensures o == CheckConnectionName(value)
      ensures o.Pass? ==> c.arguments == [(Name, ["--name", value.value])] && c.name == value
    {
      c := new Connection();
      o := c.InitName(value);
    }

    /** `_arguments[key] = values`, where `values` are the words `key`'s new setting records. */
    method Put(key: Property, values: seq<string>, ghost before: Settings)
      requires UniqueKeys(arguments) && Mirrors(arguments, before) && SameElsewhere(before, Current(), key)
      requires if IsMemoised(key) then Memo(Current(), key).Some? && values == [FlagOf(key), Memo(Current(), key).value]
               else Words(Current(), key) == Some(values)
      modifies this`arguments
      ensures Valid()
      ensures arguments == Upserted(old(arguments), key, values)
    {
      ghost var t := arguments;
      arguments := Upserted(arguments, key, values);
      UpsertedUnique(t, key, values);
      forall k ensures Find(arguments, k) == if k == key then Some(values) else Find(t, k) {
        UpsertedFind(t, key, values, k);
      }
      Reassigned(t, arguments, before, Current(), key);
    }

    /** `_arguments.Remove(key)`, where `key`'s setting is now unset. */
    method Drop(key: Property, ghost before: Settings)
      requires UniqueKeys(arguments) && Mirrors(arguments, before) && SameElsewhere(before, Current(), key)
      requires !IsMemoised(key) && Words(Current(), key) == None
      modifies this`arguments
      ensures Valid()
      ensures arguments == Removed(old(arguments), key)
    {
      ghost var t := arguments;
      arguments := Removed(arguments, key);
      RemovedUnique(t, key);
      forall k ensures Find(arguments, k) == if k == key then None else Find(t, k) {
        RemovedFind(t, key, k);
      }
      Reassigned(t, arguments, before, Current(), key);
    }

    /** A text setter: `null` clears the property and its entry, anything else records `flag, value`. */
    method SetText(p: PlainText, value: Option<string>)
      requires Valid()
      modifies this`arguments, this`texts
      ensures Valid()
      ensures value.None? ==> texts == old(texts) - {p} && arguments == Removed(old(arguments), p)
      ensures value.Some? ==> texts == old(texts)[p := value.value] && arguments == Upserted(old(arguments), p, [FlagOf(p), value.value])
    {
      if value.None? {
        texts := texts - {p};
        Drop(p, old(Current()));
      } else {
        texts := texts[p := value.value];
        Put(p, [FlagOf(p), value.value], old(Current()));
      }
    }

    /** A `bool?` setter: any value, `false` included, records the bare flag. */
    method SetSwitch(p: Switch, value: Option<bool>)
      requires Valid()
      modifies this`arguments, this`switches
      ensures Valid()
      ensures value.None? ==> switches == old(switches) - {p} && arguments == Removed(old(arguments), p)
      ensures value.Some? ==> switches == old(switches)[p := value.value] && arguments == Upserted(old(arguments), p, [FlagOf(p)])
    {
      if value.None? {
        switches := switches - {p};
        Drop(p, old(Current()));
      } else {
        switches := switches[p := value.value];
        Put(p, [FlagOf(p)], old(Current()));
      }
    }

    /** Stores a validated list and records its words. */
    method StoreList(p: Property, value: Option<seq<string>>, words: seq<string>)
      requires Valid() && IsList(p)
      requires value.Some? ==> words == ListArguments(p, value.value)
      modifies this`arguments, this`lists
      ensures Valid()
      ensures value.None? ==> lists == old(lists) - {p} && arguments == Removed(old(arguments), p)
      ensures value.Some? ==> lists == old(lists)[p := value.value] && arguments == Upserted(old(arguments), p, words)
    {
      if value.None? {
        lists := lists - {p};
        Drop(p, old(Current()));
      } else {
        lists := lists[p := value.value];
        Put(p, words, old(Current()));
      }
    }

    /** `AllowConflictingSubnets`, `AlsoProxy`, `NeverProxy`: an empty list is out of range. */
    method SetCidrList(p: CidrList, value: Option<seq<string>>) returns (o: Outcome<Fault>)
      requires Valid()
      modifies this`arguments, this`lists
      ensures Valid()
      ensures o.Fail? <==> value.Some? && |value.value| == 0
      ensures o.Fail? ==> o.error.ArgumentOutOfRange? && arguments == old(arguments) && lists == old(lists)
      ensures value.None? ==> lists == old(lists) - {p} && arguments == Removed(old(arguments), p)
      ensures o.Pass? && value.Some? ==>
        lists == old(lists)[p := value.value] && arguments == Upserted(old(arguments), p, [FlagOf(p), JoinedNonBlank(value.value)])
    {
      if value.Some? && |value.value| == 0 {
        var parameter := match p
          case AllowConflictingSubnets => "AllowConflictingSubnets"
          case AlsoProxy => "AlsoProxy"
          case _ => "NeverProxy";
        return Fail(ArgumentOutOfRange(parameter));
      }
      var words := if value.Some? then [FlagOf(p), JoinedNonBlank(value.value)] else [];
      StoreList(p, value, words);
      return Pass;
    }

    /** `Expose`: an empty list is out of range; each non-blank port records `--expose, port`. */
    method SetExpose(value: Option<seq<string>>) returns (o: Outcome<Fault>)
      requires Valid()
      modifies this`arguments, this`lists
      ensures Valid()
      ensures o.Fail? <==> value.Some? && |value.value| == 0
      ensures o.Fail? ==> o.error == ArgumentOutOfRange("Expose") && arguments == old(arguments) && lists == old(lists)
      ensures value.None? ==> lists == old(lists) - {Expose} && arguments == Removed(old(arguments), Expose)
      ensures o.Pass? && value.Some? ==>
        lists == old(lists)[Expose := value.value] && arguments == Upserted(old(arguments), Expose, Repeated("--expose", NonBlank(value.value)))
    {
      if value.None? {
        StoreList(Expose, value, []);
        return Pass;
      }
      if |value.value| == 0 {
        return Fail(ArgumentOutOfRange("Expose"));
      }
      var words := BuildRepeated("--expose", NonBlank(value.value));
      StoreList(Expose, value, words);
      return Pass;
    }

    /** `AsGroups`: an empty list is out of range; every group, blank or not, records `--as-group, group`. */
    method SetAsGroups(value: Option<seq<string>>) returns (o: Outcome<Fault>)
      requires Valid()
      modifies this`arguments, this`lists
      ensures Valid()
      ensures o.Fail? <==> value.Some? && |value.value| == 0
      ensures o.Fail? ==> o.error == ArgumentOutOfRange("AsGroups") && arguments == old(arguments) && lists == old(lists)
      ensures value.None? ==> lists == old(lists) - {AsGroups} && arguments == Removed(old(arguments), AsGroups)
      ensures o.Pass? && value.Some? ==>
        lists == old(lists)[AsGroups := value.value] && arguments == Upserted(old(arguments), AsGroups, Repeated("--as-group", value.value))
    {
      if value.None? {
        StoreList(AsGroups, value, []);
        return Pass;
      }
      if |value.value| == 0 {
        return Fail(ArgumentOutOfRange("AsGroups"));
      }
      var words := BuildRepeated("--as-group", value.value);
      StoreList(AsGroups, value, words);
      return Pass;
    }

    /** `MappedNamespaces`: every element checked; the non-blank ones are recorded comma-joined. */
    method SetMappedNamespaces(value: Option<seq<string>>) returns (o: Outcome<Fault>)
      requires Valid()
      modifies this`arguments, this`lists
      ensures Valid()
      ensures o == if value.None? then Pass else CheckMappedNamespaces(value.value)
      ensures o.Fail? ==> arguments == old(arguments) && lists == old(lists)
      ensures value.None? ==> lists == old(lists) - {MappedNamespaces} && arguments == Removed(old(arguments), MappedNamespaces)
      ensures o.Pass? && value.Some? ==>
        lists == old(lists)[MappedNamespaces := value.value]
        && arguments == Upserted(old(arguments), MappedNamespaces, ["--mapped-namespaces", JoinedNonBlank(value.value)])
    {
      if value.Some? {
        o := CheckMappedNamespaces(value.value);
        if o.Fail? {
          return;
        }
      }
      var words := if value.Some? then ["--mapped-namespaces", JoinedNonBlank(value.value)] else [];
      StoreList(MappedNamespaces, value, words);
      return Pass;
    }

    /** `ManagerNamespace`: `null` clears it; otherwise checked and recorded. */
    method SetManagerNamespace(value: Option<string>) returns (o: Outcome<Fault>)
      requires Valid()
      modifies this`arguments, this`texts
      ensures Valid()
      ensures o == if value.None? then Pass else CheckManagerNamespace(value.value)
      ensures o.Fail? ==> arguments == old(arguments) && texts == old(texts)
      ensures value.None? ==> texts == old(texts) - {ManagerNamespace} && arguments == Removed(old(arguments), ManagerNamespace)
      ensures o.Pass? && value.Some? ==>
        texts == old(texts)[ManagerNamespace := value.value]
        && arguments == Upserted(old(arguments), ManagerNamespace, ["--manager-namespace", value.value])
    {
      if value.None? {
        texts := texts - {ManagerNamespace};
        Drop(ManagerNamespace, old(Current()));
      } else {
        o := CheckManagerNamespace(value.value);
        if o.Fail? {
          return;
        }
        texts := texts[ManagerNamespace := value.value];
        Put(ManagerNamespace, ["--manager-namespace", value.value], old(Current()));
      }
      return Pass;
    }

    /** `Name` init. */
    method InitName(value: Option<string>) returns (o: Outcome<Fault>)
      requires Valid()
      modifies this`arguments, this`name
      ensures Valid()
      ensures o == CheckConnectionName(value)
      ensures o.Fail? ==> arguments == old(arguments) && name == old(name)
      ensures o.Pass? ==> name == value && arguments == Upserted(old(arguments), Name, ["--name", value.value])
    {
      o := CheckConnectionName(value);
      if o.Fail? {
        return;
      }
      name := value;
      Put(Name, ["--name", value.value], old(Current()));
    }

    /** `Namespace` init. */
    method InitNamespace(value: Option<string>) returns (o: Outcome<Fault>)
      requires Valid()
      modifies this`arguments, this`namespace
      ensures Valid()
      ensures o == CheckNamespace(value)
      ensures o.Fail? ==> arguments == old(arguments) && namespace == old(namespace)
      ensures o.Pass? ==> namespace == value && arguments == Upserted(old(arguments), Namespace, ["--namespace", value.value])
    {
      o := CheckNamespace(value);
      if o.Fail? {
        return;
      }
      namespace := value;
      Put(Namespace, ["--namespace", value.value], old(Current()));
    }

    /** `Context` init. */
    method InitContext(value: Option<string>) returns (o: Outcome<Fault>)
      requires Valid()
      modifies this`arguments, this`context
      ensures Valid()
      ensures o == CheckContext(value)
      ensures o.Fail? ==> arguments == old(arguments) && context == old(context)
      ensures o.Pass? ==> context == value && arguments == Upserted(old(arguments), Context, ["--context", value.value])
    {
      o := CheckContext(value);
      if o.Fail? {
        return;
      }
      context := value;
      Put(Context, ["--context", value.value], old(Current()));
    }

    /** `Context` getter: `_context ??= <kubeconfig current context>`; the dictionary is not touched. */
    method GetContext(kube: KubeConfigFile) returns (r: Option<string>)
      requires Valid()
      modifies this`context
      ensures Valid()
      ensures r == (if old(context).Some? then old(context) else kube.currentContext) && context == r
    {
      if context.None? {
        context := kube.currentContext;
      }
      r := context;
      assert Agrees(arguments, old(Current()), Context);
      Reassigned(arguments, arguments, old(Current()), Current(), Context);
    }

    /** `Namespace` getter: `_namespace ??= <kubeconfig namespace>`. */
    method GetNamespace(kube: KubeConfigFile) returns (r: Option<string>)
      requires Valid()
      modifies this`namespace
      ensures Valid()
      ensures r == (if old(namespace).Some? then old(namespace) else kube.namespace) && namespace == r
    {
      if namespace.None? {
        namespace := kube.namespace;
      }
      r := namespace;
      assert Agrees(arguments, old(Current()), Namespace);
      Reassigned(arguments, arguments, old(Current()), Current(), Namespace);
    }

    /** `Name` getter: `_name ??= $"{Context}-{Namespace}"`, reading (and memoising) both getters. */
    method GetName(kube: KubeConfigFile) returns (r: string)
      requires Valid()
      modifies this`name, this`context, this`namespace
      ensures Valid()
      ensures old(name).Some? ==> r == old(name).value && name == old(name) && context == old(context) && namespace == old(namespace)
      ensures old(name).None? ==>
        context == (if old(context).Some? then old(context) else kube.currentContext)
        && namespace == (if old(namespace).Some? then old(namespace) else kube.namespace)
        && r == DefaultName(context, namespace)
      ensures name == Some(r)
    {
      if name.Some? {
        return name.value;
      }
      var c := GetContext(kube);
      var n := GetNamespace(kube);
      r := DefaultName(c, n);
      ghost var before := Current();
      assert Agrees(arguments, before, Name);
      name := Some(r);
      Reassigned(arguments, arguments, before, Current(), Name);
    }

    /**
     * `Connect`: nothing once connected. Otherwise run `telepresence connect` followed by every
     * recorded word; the flag is set only when the run completes, and a failure is swallowed.
     */
    method Connect(runner: CommandRunner) returns (args: Option<seq<string>>)
      modifies this`connected, runner
      ensures old(connected) ==> args.None? && connected && unchanged(runner)
      ensures !old(connected) ==>
        && args == Some(["connect"] + Flatten(arguments))
        && runner.started == old(runner.started) + [args.value]
        && connected == NextOutcome(old(runner.script)).Exited?
    {
      if connected {
        return None;
      }
      var line := CommandLine(["connect"], arguments);
      var outcome := runner.Run(line);
      if outcome.Exited? {
        connected := true;
      }
      return Some(line);
    }

    /**
     * `Quit(stopDaemons)` as intended: run `telepresence quit`, and once it completes the
     * connection is closed, so a later `Connect` runs again. Failures are swallowed.
     */
    method QuitWith(stopDaemons: bool, runner: CommandRunner)
      modifies this`connected, runner
      ensures runner.started == old(runner.started) + [QuitCommand(stopDaemons)]
      ensures connected == (old(connected) && !NextOutcome(old(runner.script)).Exited?)
    {
      var outcome := runner.Run(QuitCommand(stopDaemons));
      if outcome.Exited? {
        connected := false;
      }
    }

    /** `Quit(stopDaemons)` as written: a completed quit sets `_connected = true`. */
    method QuitWithAsWritten(stopDaemons: bool, runner: CommandRunner)
      modifies this`connected, runner
      ensures runner.started == old(runner.started) + [QuitCommand(stopDaemons)]
      ensures connected == (old(connected) || NextOutcome(old(runner.script)).Exited?)
    {
      var outcome := runner.Run(QuitCommand(stopDaemons));
      if outcome.Exited? {
        connected := true;
      }
    }

    /** `Disconnect()`: quit without stopping the daemons, through `Quit(bool)` as written. */
    method Disconnect(runner: CommandRunner)
      modifies this`connected, runner
      ensures runner.started == old(runner.started) + [["quit"]]
      ensures connected == (old(connected) || NextOutcome(old(runner.script)).Exited?)
    {
      QuitWithAsWritten(false, runner);
    }

    /** `Quit()`: quit and stop the daemons, through `Quit(bool)` as written. */
    method Quit(runner: CommandRunner)
      modifies this`connected, runner
      ensures runner.started == old(runner.started) + [["quit", "--stop-daemons"]]
      ensures connected == (old(connected) || NextOutcome(old(runner.script)).Exited?)
    {
      QuitWithAsWritten(true, runner);
    }
  }

  /** Every property that is set stands, as its own words, on the `connect` command line. */
  lemma StoredOnConnectLine(c: Connection, p: Property)
    requires c.Valid() && !IsMemoised(p) && c.Stored(p).Some?
    ensures exists before, after :: Flatten(c.arguments) == before + c.Stored(p).value + after
  {
    var t := c.arguments;
    assert Agrees(t, c.Current(), p);
    FoundOnCommandLine(t, p);
    var i :| 0 <= i < |t| && t[i] == (p, Find(t, p).value) && Flatten(t) == Flatten(t[..i]) + t[i].1 + Flatten(t[i + 1..]);
    assert Flatten(t) == Flatten(t[..i]) + c.Stored(p).value + Flatten(t[i + 1..]);
  }

  /** As written, a completed `Quit` makes the next `Connect` a no-op: `connect` never runs again. */
  method QuitThenConnectAsWritten() returns (commands: seq<seq<string>>)
    ensures commands == [QuitCommand(true)]
  {
    var c := new Connection();
    var runner := new CommandRunner([]);
    c.Quit(runner);
    var _ := c.Connect(runner);
    commands := runner.started;
  }

  /** With the intended flag, `Connect` after a completed `Quit` runs `connect` again. */
  method QuitThenConnect() returns (commands: seq<seq<string>>)
    ensures commands == [QuitCommand(true), ["connect"]]
  {
    var c := new Connection();
    var runner := new CommandRunner([]);
    c.QuitWith(true, runner);
    assert !c.connected && runner.started == [QuitCommand(true)];
    var args := c.Connect(runner);
    assert Flatten(c.arguments) == [];
    assert ["connect"] + Flatten(c.arguments) == ["connect"];
    assert args == Some(["connect"]);
    commands := runner.started;
  }
}
