/**
 * The value-like parts of an intercept specification: the ingress, the script handler,
 * the external handler with its output-path dispatch, and the enum wire strings the YAML
 * converter writes.
 */
module SpecValues {
  import opened Wrappers
  import opened Text
  import opened Constants
  import opened Validation

  // ----- enums and YamlStringEnumConverter -----

  datatype OutputFormat = Json | Yaml
  datatype Shell = Bash | Zsh | Sh

  /** A member of an enum type: its name and the value of its `[EnumMember]` attribute, if any. */
  datatype EnumMember = EnumMember(name: string, wireValue: Option<string>)

  /** The types the YAML serializer hands to the converter. */
  datatype ClrType = EnumType(members: seq<EnumMember>) | OtherType(typeName: string)

  /** `Accepts`: the converter handles enum types only. */
  predicate Accepts(t: ClrType) { t.EnumType? }

  /** `type.GetMember(name).FirstOrDefault()` among the enum's members. */
  function FindMember(members: seq<EnumMember>, name: string): (r: Option<EnumMember>)
    ensures r.Some? ==> r.value in members && r.value.name == name
    ensures r.None? ==> forall i :: 0 <= i < |members| ==> members[i].name != name
    decreases |members|
  {
    if |members| == 0 then None
    else if members[0].name == name then Some(members[0])
    else FindMember(members[1..], name)
  }

  /**
   * The scalar `WriteYaml` emits for a value whose `ToString()` is `text` (`None` for null):
   * the member's `EnumMember` value, else the text itself, else the empty string.
   */
  function WriteYaml(text: Option<string>, t: ClrType): (r: string)
    ensures text.None? && (t.OtherType? || FindMember(t.members, "").None?) ==> r == ""
  {
    var member := if t.EnumType? then FindMember(t.members, text.GetOr("")) else None;
    if member.Some? && member.value.wireValue.Some? then member.value.wireValue.value
    else text.GetOr("")
  }

  /** `ReadYaml` is not implemented. */
  function ReadYaml(t: ClrType): (r: Result<string, Fault>)
    ensures r == Failure(NotImplemented)
  {
    Failure(NotImplemented)
  }

  const OutputFormatType := EnumType([EnumMember("Json", Some("json")), EnumMember("Yaml", Some("yaml"))])
  const ShellType := EnumType([EnumMember("Bash", Some("bash")), EnumMember("Zsh", Some("zsh")), EnumMember("Sh", Some("sh"))])

  function OutputFormatName(f: OutputFormat): string {
    match f
    case Json => "Json"
    case Yaml => "Yaml"
  }

  function ShellName(s: Shell): string {
    match s
    case Bash => "Bash"
    case Zsh => "Zsh"
    case Sh => "Sh"
  }

  /** Every member is written as its lower-case attribute value. */
  lemma WireStrings()
    ensures WriteYaml(Some(OutputFormatName(Json)), OutputFormatType) == "json"
    ensures WriteYaml(Some(OutputFormatName(Yaml)), OutputFormatType) == "yaml"
    ensures WriteYaml(Some(ShellName(Bash)), ShellType) == "bash"
    ensures WriteYaml(Some(ShellName(Zsh)), ShellType) == "zsh"
    ensures WriteYaml(Some(ShellName(Sh)), ShellType) == "sh"
  {
  }

  /** A member without the attribute, or a value naming no member, is written by its text; null is written empty. */
  lemma WriteYamlFallback(text: Option<string>, members: seq<EnumMember>)
    requires forall i :: 0 <= i < |members| ==> members[i].wireValue.None? || (text.Some? && members[i].name != text.value)
    ensures WriteYaml(text, EnumType(members)) == text.GetOr("")
  {
    var member := FindMember(members, text.GetOr(""));
    if member.Some? {
      var i :| 0 <= i < |members| && members[i] == member.value;
    }
  }

  /** An enum whose members carry no attribute is written by member name. */
  lemma WriteYamlMemberName(name: string)
    ensures WriteYaml(Some(name), EnumType([EnumMember(name, None)])) == name
    ensures WriteYaml(None, EnumType([EnumMember(name, None)])) == ""
  {
  }

  // ----- Ingress -----

  datatype Ingress = Ingress(host: Option<string>, l5Host: Option<string>, port: Option<int>, tls: bool)

  /** A fresh ingress: nothing set and `Tls` false. */
  const NewIngress := Ingress(None, None, None, false)

  /** The `Port` init accessor: a missing port is accepted, a present one must be 1..65535 and is stored as given. */
  function WithIngressPort(ingress: Ingress, value: Option<int>): (r: Result<Ingress, Fault>)
    ensures r.Success? <==> value.None? || IsPort(value.value)
    ensures r.Failure? ==> r.error == InvalidOperation(NotValidPort)
    ensures r.Success? ==> r.value.port == value && r.value.(port := ingress.port) == ingress
  {
    if CheckPort(value).Fail? then Failure(CheckPort(value).error) else Success(ingress.(port := value))
  }

  // ----- Script -----

  /** The script handler; `run` is `None` until the `Run` init accessor stores a value. */
  datatype Script = Script(run: Option<string>, shell: Option<Shell>)

  const NewScript := Script(None, None)

  /** The `Run` init accessor: a blank or null value throws; anything else is stored unchanged. */
  function WithRun(script: Script, value: Option<string>): (r: Result<Script, Fault>)
    ensures r.Success? <==> !IsNullOrBlank(value)
    ensures r.Failure? ==> r.error == ArgumentNull("Run")
    ensures r.Success? ==> r.value.run == value && r.value.shell == script.shell
  {
    if IsNullOrBlank(value) then Failure(ArgumentNull("Run")) else Success(script.(run := value))
  }

  /** The `Run` getter: throws unless a non-blank value was stored. */
  function RunOf(script: Script): (r: Result<string, Fault>)
    ensures r.Success? <==> !IsNullOrBlank(script.run)
    ensures r.Success? ==> Some(r.value) == script.run
    ensures r.Failure? ==> r.error == ArgumentNull("Run")
  {
    if IsNullOrBlank(script.run) then Failure(ArgumentNull("Run")) else Success(script.run.value)
  }

  /** Whatever `Run` was stored is read back. */
  lemma RunRoundTrip(script: Script, value: Option<string>)
    requires WithRun(script, value).Success?
    ensures RunOf(WithRun(script, value).value) == Success(value.value)
  {
  }

  /** A script that was never given `Run` cannot be read. */
  lemma UnsetRunThrows(shell: Option<Shell>)
    ensures RunOf(Script(None, shell)) == Failure(ArgumentNull("Run"))
  {
  }

  /** `Handle` of a script is not implemented. */
  function HandleScript(script: Script): (r: Outcome<Fault>)
    ensures r == Fail(NotImplemented)
  {
    Fail(NotImplemented)
  }

  // ----- External -----

  /** The strategy the `OutputPath` init accessor installs. */
  datatype OutputStrategy = StandardOutput | StandardError | FileOutput(outputPath: string)

  datatype External = External(isDocker: Option<bool>, outputFormat: Option<OutputFormat>,
                               outputPath: Option<string>, strategy: Option<OutputStrategy>)

  const NewExternal := External(None, None, None, None)

  const StandardOutputName := "stdout"
  const StandardErrorName := "stderr"

  /**
   * The `OutputPath` init accessor. A blank path is ignored; "stdout" and "stderr" (any
   * case) are stored verbatim with the console strategies; any other value is stored as
   * its full path while the file strategy keeps the value as written.
   */
  function WithOutputPath(external: External, value: Option<string>, fullPath: string -> string): (r: External)
    ensures IsNullOrBlank(value) ==> r == external
    ensures !IsNullOrBlank(value) ==> r.strategy.Some? && r.isDocker == external.isDocker && r.outputFormat == external.outputFormat
    ensures !IsNullOrBlank(value) ==> (r.strategy == Some(StandardOutput) <==> EqualsIgnoreCase(StandardOutputName, value.value))
    ensures !IsNullOrBlank(value) ==>
      (r.strategy == Some(StandardError) <==> !EqualsIgnoreCase(StandardOutputName, value.value) && EqualsIgnoreCase(StandardErrorName, value.value))
    ensures !IsNullOrBlank(value) && !r.strategy.value.FileOutput? ==> r.outputPath == value
    ensures !IsNullOrBlank(value) && r.strategy.value.FileOutput? ==>
      r.strategy.value == FileOutput(value.value) && r.outputPath == Some(fullPath(value.value))
  {
    if IsNullOrBlank(value) then external
    else if EqualsIgnoreCase(StandardOutputName, value.value) then external.(outputPath := value, strategy := Some(StandardOutput))
    else if EqualsIgnoreCase(StandardErrorName, value.value) then external.(outputPath := value, strategy := Some(StandardError))
    else external.(outputPath := Some(fullPath(value.value)), strategy := Some(FileOutput(value.value)))
  }

  /** The external handler the `Handler.External` getter installs when none is set: JSON to stdout. */
  const DefaultExternal := External(None, Some(Json), Some(StandardOutputName), Some(StandardOutput))

  lemma DefaultExternalIsStdout(fullPath: string -> string)
    ensures WithOutputPath(NewExternal.(outputFormat := Some(Json)), Some(StandardOutputName), fullPath) == DefaultExternal
  {
    assert ToLower(StandardOutputName) == StandardOutputName;
    assert !IsWhiteSpace(StandardOutputName[0]);
  }

  /** "STDOUT" selects the console strategy and is kept as written; "out.json" selects the file strategy. */
  lemma OutputPathExamples(fullPath: string -> string)
    ensures WithOutputPath(NewExternal, Some("STDOUT"), fullPath) == NewExternal.(outputPath := Some("STDOUT"), strategy := Some(StandardOutput))
    ensures WithOutputPath(NewExternal, Some("out.json"), fullPath).strategy == Some(FileOutput("out.json"))
    ensures WithOutputPath(NewExternal, Some(" "), fullPath) == NewExternal
  {
    assert ToLower("STDOUT") == "stdout";
    assert ToLower(StandardOutputName) == "stdout";
    assert ToLower(StandardErrorName) == "stderr";
    assert ToLower("out.json") == "out.json";
    assert !IsWhiteSpace("STDOUT"[0]);
    assert !IsWhiteSpace("out.json"[0]);
  }

  /** `External.Handle`: the installed strategy, or a null dereference when no path was ever set. */
  function ExternalTarget(external: External): (r: Result<OutputStrategy, Fault>)
    ensures r.Success? <==> external.strategy.Some?
    ensures r.Success? ==> r.value == external.strategy.value
    ensures r.Failure? ==> r.error == NullReference
  {
    match external.strategy
    case None => Failure(NullReference)
    case Some(s) => Success(s)
  }
}
