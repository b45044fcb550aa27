# Telepresence.NET, modelled in Dafny

Telepresence.NET is a .NET library for working with Telepresence intercepts of Kubernetes workloads from a local process. This project models its core in Dafny and proves properties of that model.

**Starting intercepts.** The library has three ways to start one:

- The command-line wrappers `Connection` and `Intercept`. Their validating `init` accessors record command-line words in an argument dictionary. `Connect`, `Quit`, `Start` and `Leave` then run `telepresence connect / quit / intercept / leave` with those words.
- The intercept specification, `InterceptSpecification`, with its `Connection`, `Workload`, `WorkloadIntercept` and `Handler` entities:
  - their getters memoise defaults;
  - their setters validate names, ports, counts and handler exclusivity;
  - `Run` writes the specification to a temporary file and runs `telepresence intercept run` through the first handler's output strategy, which loads the resulting environment into the process;
  - `Leave` leaves the first intercept and deletes the temporary directory.
- The older root-level `Telepresence.NET.Intercept`, which does the same through `telepresence connect`, `leave` and a handler.

**Routing requests and messages.** The library also routes requests and messages by their `x-telepresence-*` headers:

- an MVC action filter captures them into a per-request context;
- a delegating handler copies them onto outgoing HTTP requests;
- MassTransit publish and send filters copy them onto messages;
- the consume filters ask the traffic agent's RESTful API (`/consume-here`) whether this process should consume a message. The client also offers `/healthz` and `/intercept-info`.

**How the model represents the host.**

| element | model |
|---|---|
| mutable entities | classes whose fields the `init` accessors and getters assign |
| argument dictionaries | association lists kept in insertion order |
| process environment | a `map` |
| file system | a map of files and a set of directories |
| `telepresence` command | a recorder of command lines with scripted outcomes |
| HTTP agent, deserialisers, kubeconfig, random draws | parameters |

Polling loops take the sequence of observations they would make. An exception is a `Fault` value: it is returned as `Fail`/`Failure`/`Raised` where it propagates, and as `caught` where the source logs and swallows it.

**Where the code differs from the intended design, the model follows the code:**

- **Handler check.** The "exactly one of Docker, Script or External" check is `isDocker ^ isScript ^ isExternal`, which also admits all three. The `External` getter of a specification handler is never null, so there the check reduces to "Docker iff Script".
- **Mapped namespaces.** The command-line `MappedNamespaces` pattern accepts only two-character namespaces, or values containing `{{`.
- **Leave.** The command-line `Intercept.Start` and `Leave` swallow every exception. The specification's `Leave` reads the intercept name before its `try`, so a failure there escapes and nothing is cleaned up.
- **Intercept names.** The command-line `Intercept.Name` getter does not memoise its default; the other `Name` getters do.
- **API client.** Its three calls send outside the `try` that guards `EnsureSuccessStatusCode`, so a failure to reach the agent propagates.
- **Intercept-as header.** The older MassTransit send filter lets a blank message header hide a non-blank HTTP header; the publish filter does not.
- **Environment overrides.** `ExcludeEnvironment` filters only the manual `IncludeEnvironment` overrides. Variables read from the environment file are imported whether or not they are excluded.
- **File output.** The file output strategy never starts the process it is handed. It only waits for the output file.

## Model

Paths are relative to the repository root.

| member | source | states |
|---|---|---|
| Arguments.Upserted | src/Telepresence.NET/Connection/ConnectionFlags.cs:37 | Assigning an existing key keeps the set of keys and their order; a new key is appended at the end |
| Arguments.UpsertedFind | src/Telepresence.NET/Connection/ConnectionFlags.cs:37 | After an assignment the key maps to the new words and every other key maps to what it did before |
| Arguments.UpsertedUnique | src/Telepresence.NET/Connection/ConnectionFlags.cs:37 | Assignment keeps the dictionary's keys unique |
| Arguments.Removed | src/Telepresence.NET/Connection/ConnectionFlags.cs:19 | Removing never grows the dictionary and removing an absent key changes nothing |
| Arguments.RemovedFind | src/Telepresence.NET/Connection/ConnectionFlags.cs:19 | After removal the key is absent and every other key is unchanged |
| Arguments.RemovedUnique | src/Telepresence.NET/Connection/ConnectionFlags.cs:19 | Removal keeps keys unique and leaves only entries that were there |
| Arguments.FoundOnCommandLine | src/Telepresence.NET/Connection/Connection.cs:71-72 | Every recorded entry's words appear contiguously, at its position, in the flattened argument list |
| Arguments.NewKeyGoesLast | src/Telepresence.NET/Connection/Connection.cs:71-72 | Setting a property for the first time appends its words at the end of the command line |
| Arguments.ReassignInPlace | src/Telepresence.NET/Connection/ConnectionFlags.cs:37 | Re-setting a property replaces its words in place, leaving the words before and after it untouched |
| Arguments.RemoveDropsValues | src/Telepresence.NET/Connection/ConnectionFlags.cs:19 | Clearing a property removes exactly its words from the command line |
| Arguments.CommandLine | src/Telepresence.NET/Connection/Connection.cs:71-72 | The argument list built by the loop is the command head followed by every recorded word in dictionary order |
| Arguments.Repeated | src/Telepresence.NET/Connection/ConnectionFlags.cs:124-128 | A repeated flag contributes two words per item |
| Arguments.RepeatedAt | src/Telepresence.NET/Connection/ConnectionFlags.cs:124-128 | Word 2i is the flag and word 2i+1 is item i |
| Arguments.BuildRepeated | src/Telepresence.NET/Connection/ConnectionFlags.cs:124-128 | The loop that adds `flag, item` per item produces exactly the repeated-flag words |
| Arguments.SameRepeated | src/Telepresence.NET/Connection/ConnectionFlags.cs:124-128 | Any list alternating the flag with the items in order equals the repeated-flag words |
| Arguments.NonBlankValued | src/Telepresence.NET/Intercept/InterceptFlags.cs:99-103 | A pair is kept iff it occurs in the input with a non-blank value |
| Arguments.NonBlankValuedMultiplicity | src/Telepresence.NET/Intercept/InterceptFlags.cs:99-103 | Each pair with a non-blank value is kept as often as it occurs, and none with a blank value |
| Arguments.NonBlankValuedAppend | src/Telepresence.NET/Intercept/InterceptFlags.cs:99-103 | The filter keeps order: filtering a concatenation concatenates the filtered parts |
| Arguments.Assignments | src/Telepresence.NET/Intercept/InterceptFlags.cs:717-720 | One `key=value` word per pair, in order |
| Arguments.PairArguments | src/Telepresence.NET/Intercept/InterceptFlags.cs:99-103 | A pair list records two words per non-blank-valued pair |
| Arguments.JoinedSkipsBlank | src/Telepresence.NET/Connection/ConnectionFlags.cs:28-29 | A blank item does not change the comma-joined CIDR word |
| Arguments.NonBlankAppendBlank | src/Telepresence.NET/Connection/ConnectionFlags.cs:28 | Filtering blanks drops an appended blank item |
| Text.BlankExamples | src/Telepresence.NET/Connection/ConnectionFlags.cs:246 | `IsNullOrWhiteSpace` holds for empty and all-white-space strings, not for ones with a visible character |
| Text.LastIndexOf | src/Telepresence.NET/InterceptSpec/Handlers/ExternalHandlers/StandardOutputHandler.cs:24 | The result is -1 or the index of the character, with no occurrence after it |
| Text.ReplaceChar | src/Telepresence.NET/Constants.cs:16-17 | Same length; exactly the occurrences of the character are replaced |
| Text.ToLower | src/Telepresence.NET/Constants.cs:18 | Same length; every character lower-cased on its own |
| Text.Join | src/Telepresence.NET/Connection/ConnectionFlags.cs:29 | Joining nothing gives the empty string and joining one part gives that part |
| Text.JoinSeparators | src/Telepresence.NET/Connection/ConnectionFlags.cs:29 | Joining separator-free parts gives text holding exactly one separator fewer than there are parts |
| Text.JoinSnoc | src/Telepresence.NET/Connection/ConnectionFlags.cs:29 | Joining one more part appends one separator and then that part, so each neighbouring pair is separated by exactly one separator |
| Text.NonBlank | src/Telepresence.NET/Connection/ConnectionFlags.cs:28 | Keeps every non-blank item as often as it occurs and drops every blank one |
| Text.NonBlankAppend | src/Telepresence.NET/Connection/ConnectionFlags.cs:28 | The filter keeps order: filtering a concatenation concatenates the filtered parts |
| Numbers.DecimalString | src/Telepresence.NET/RestfulApi/TelepresenceApiService.cs:26 | The decimal text of an integer is non-empty, starts with a digit or `-` by sign and ends with a digit |
| Numbers.ParseInt32 | src/Telepresence.NET/Helpers/EnvironmentHelper.cs:16 | A successful conversion to `int` is within the 32-bit range |
| Numbers.ParseDecimalString | src/Telepresence.NET/Helpers/EnvironmentHelper.cs:16 | Parsing the decimal text of any 32-bit integer gives that integer back |
| Numbers.ParseAcceptsPaddedPort | src/Telepresence.NET/Helpers/EnvironmentHelper.cs:16 | Surrounding white space is accepted |
| Numbers.ParseRejects | src/Telepresence.NET/Helpers/EnvironmentHelper.cs:16-22 | Empty text, trailing garbage and values beyond 32 bits are refused |
| Constants.Normalize | src/Telepresence.NET/Constants.cs:16-18 | The normalised assembly name has the same length and contains no `.`, `_` or upper-case letter |
| Constants.NormalizeIdempotent | src/Telepresence.NET/Constants.cs:16-18 | Normalising twice is the same as normalising once |
| Constants.NormalizeAt | src/Telepresence.NET/Constants.cs:16-18 | Each character becomes `-` if it was `.` or `_`, and is lower-cased otherwise |
| Constants.NormalizeGivesLowerName | src/Telepresence.NET/Constants.cs:16-18 | A letter-led assembly name of letters, digits, `.`, `-` and `_` normalises to a lower-case DNS-style name |
| Constants.NormalizedEntryAssembly | src/Telepresence.NET/Constants.cs:12-19 | Fails, with the type-initialisation error, exactly when there is no entry-assembly name |
| Defaults.Name | src/Telepresence.NET/Defaults.cs:10-17 | The same default, failing exactly without an entry-assembly name |
| EnvironmentHelper.TryGetEnvironmentVariable | src/Telepresence.NET/Helpers/EnvironmentHelper.cs:5-24 | A missing or blank variable yields nothing; otherwise the result is the conversion of its text |
| EnvironmentHelper.ApiPort | src/Telepresence.NET/RestfulApi/TelepresenceApiService.cs:20 | The API port, when read, is a 32-bit integer |
| EnvironmentHelper.InterceptId | src/Telepresence.NET/RestfulApi/TelepresenceApiService.cs:58 | The intercept id is read exactly when the variable is set and not blank, and is its text |
| EnvironmentHelper.UnparseablePort | src/Telepresence.NET/Helpers/EnvironmentHelper.cs:20-22 | A port the conversion refuses is treated as missing |
| EnvironmentHelper.PortRoundTrip | src/Telepresence.NET/Helpers/EnvironmentHelper.cs:16 | A variable holding the decimal text of a port reads back as that port |
| EnvironmentHelper.PortExamples | src/Telepresence.NET/Helpers/EnvironmentHelper.cs:13-22 | Blank and non-numeric ports are missing; a padded port is read |
| EnvironmentLoader.ProcessorFor | src/Telepresence.NET/Intercept/EnvironmentLoader.cs:17-23 | `.json`, `.yml`/`.yaml` and `.env` select their processors, case-insensitively; nothing else does |
| EnvironmentLoader.ProcessorExamples | src/Telepresence.NET/Intercept/EnvironmentLoader.cs:17-23 | `.JSON` selects JSON, `.env` selects dotenv, `.txt` selects nothing |
| EnvironmentLoader.IgnoredFiles | src/Telepresence.NET/Intercept/EnvironmentLoader.cs:10-27 | A missing file or an unknown extension loads nothing and succeeds |
| EnvironmentLoader.UnimplementedFormats | src/Telepresence.NET/Intercept/EnvironmentLoader.cs:50-58 | YAML and dotenv files raise not-implemented |
| EnvironmentLoader.LoadEnvironmentFromFile | src/Telepresence.NET/Intercept/EnvironmentLoader.cs:10-27 | On failure nothing changes; on success the loaded entries are applied, in order, to the environment |
| EnvironmentLoader.ProcessJson | src/Telepresence.NET/Intercept/EnvironmentLoader.cs:37-48 | Waits for the file, then: a denied read or a cancelled wait raises, malformed JSON raises, `null` sets nothing and a dictionary is applied |
| ProcessEnvironment.AppliedSnoc | src/Telepresence.NET/Intercept/EnvironmentLoader.cs:29-35 | Applying one more entry sets just that variable |
| ProcessEnvironment.AppliedLookup | src/Telepresence.NET/Intercept/EnvironmentLoader.cs:29-35 | After applying entries a variable holds its last entry's value, or its old value if no entry names it |
| ProcessEnvironment.Untouched | src/Telepresence.NET/Intercept/EnvironmentLoader.cs:29-35 | Variables no entry names keep their value |
| ProcessEnvironment.AppliedConcat | src/Telepresence.NET/Intercept/EnvironmentLoader.cs:29-35 | Applying two lists in turn is applying their concatenation |
| ProcessEnvironment.Environment.Set | src/Telepresence.NET/Intercept/EnvironmentLoader.cs:33 | Setting a variable changes that variable only |
| ProcessEnvironment.Environment.SetAll | src/Telepresence.NET/Intercept/EnvironmentLoader.cs:29-35 | The loop over the entries leaves the environment as the entries applied in order |
| Host.Extension | src/Telepresence.NET/Intercept/EnvironmentLoader.cs:15 | The extension is empty or a suffix of the path that starts with its only `.` and holds no `/` |
| Host.ExtensionExamples | src/Telepresence.NET/Intercept/EnvironmentLoader.cs:15 | `out.json` has `.json`; a dot in a directory name or a trailing dot gives no extension |
| Host.CombineCases | src/Telepresence.NET/InterceptSpec/InterceptSpecification.cs:292-293 | An empty second path yields the first and an empty first path the second; a rooted second path replaces the first; otherwise the first path, one separator unless it already ends in one, then the second |
| Host.FileSystem.Delete | src/Telepresence.NET/Intercept/Intercept.cs:149-150 | Deleting removes that file only |
| Host.FileSystem.WriteAllText | src/Telepresence.NET/InterceptSpec/InterceptSpecification.cs:298 | Writing sets that file's text only |
| Host.FileSystem.CreateDirectory | src/Telepresence.NET/InterceptSpec/InterceptSpecification.cs:295-296 | Creating adds that directory only |
| Host.FileSystem.DeleteTree | src/Telepresence.NET/InterceptSpec/InterceptSpecification.cs:304-308 | A recursive delete removes the directory and every file beneath it, and nothing else |
| Host.CommandRunner.Run | src/Telepresence.NET/Connection/Connection.cs:93 | Each run records its command line and consumes the next scripted outcome |
| Host.WaitForOutputFile | src/Telepresence.NET/Intercept/Intercept.cs:256-274 | The poll stops at the first check that finds the file, is found iff some check does, and never polls past cancellation |
| Host.ReadWaitAt | src/Telepresence.NET/Intercept/EnvironmentLoader.cs:73-87 | Busy attempts at the front do not change the outcome of the wait |
| Host.WaitForRead | src/Telepresence.NET/Intercept/EnvironmentLoader.cs:73-87 | Retries while the file is locked; opens, raises unauthorised access, or reports cancellation after the last attempt |
| Validation.CheckName | src/Telepresence.NET/InterceptSpec/WorkloadIntercept.cs:48-57 | A name passes iff it is not blank, within 64 characters where limited, and matches; each failure raises its own exception |
| Validation.CheckPort | src/Telepresence.NET/InterceptSpec/WorkloadIntercept.cs:98-99 | A port passes iff it is absent or in 1..65535 |
| Patterns.TwoCharLabelLength | src/Telepresence.NET/Connection/ConnectionFlags.cs:217 | The mapped-namespace pattern matches only two characters, or three ending in a newline |
| Patterns.DefaultIsNotTwoCharLabel | src/Telepresence.NET/Connection/ConnectionFlags.cs:217 | `default` is a valid namespace label yet fails that pattern |
| Patterns.BoundedLabelLength | src/Telepresence.NET/InterceptSpec/Connection.cs:100 | `{1,62}` after the first character bounds a match to 2..63 characters, 64 with a final newline |
| Patterns.LowerNameIsIdentifier | src/Telepresence.NET/InterceptSpec/Workload.cs:40 | Every lower-case workload name also matches the intercept-name pattern |
| Patterns.IdentifierHasNoPlaceholder | src/Telepresence.NET/InterceptSpec/InterceptSpecification.cs:55 | A string matching the identifier body cannot contain `{{` |
| Patterns.TrailingNewlineAccepted | src/Telepresence.NET/InterceptSpec/WorkloadIntercept.cs:54 | `$` matches before a final newline, so `web\n` passes the name patterns |
| CommandLineConnection.ListArguments | src/Telepresence.NET/Connection/ConnectionFlags.cs:28-35 | CIDR and mapped-namespace lists record the flag and one comma-joined word of the non-blank items; `Expose` repeats per non-blank item; `AsGroups` repeats per item |
| CommandLineConnection.ListArgumentsAt | src/Telepresence.NET/Connection/ConnectionFlags.cs:124-128 | The repeated list flags alternate the flag and the items, in order |
| CommandLineConnection.CheckManagerNamespace | src/Telepresence.NET/Connection/ConnectionFlags.cs:178-183 | Passes iff at most 64 characters and a label or a placeholder; over 64 and pattern failures raise their own messages |
| CommandLineConnection.EmptyManagerNamespace | src/Telepresence.NET/Connection/ConnectionFlags.cs:178-183 | The empty manager namespace is refused by the pattern, not by a null check |
| CommandLineConnection.CheckMappedNamespaces | src/Telepresence.NET/Connection/ConnectionFlags.cs:214-219 | Passes iff every namespace is within 64 characters and a two-character label or placeholder; any overlong one raises the length error |
| CommandLineConnection.MappedNamespacesExamples | src/Telepresence.NET/Connection/ConnectionFlags.cs:214-224 | `dev` is refused, `qa` and `{{ns}}` pass, and an empty list records `--mapped-namespaces ""` |
| CommandLineConnection.CheckConnectionName | src/Telepresence.NET/Connection/ConnectionFlags.cs:246-252 | Passes iff present, not blank, within 64 and lower-case led; blank raises argument-null |
| CommandLineConnection.CheckNamespace | src/Telepresence.NET/Connection/ConnectionFlags.cs:279-285 | Passes iff present, not blank, within 64 and a label or placeholder |
| CommandLineConnection.CheckContext | src/Telepresence.NET/Connection/ConnectionKubernetesFlags.cs:246-247 | Passes iff not blank |
| CommandLineConnection.DefaultName | src/Telepresence.NET/Connection/ConnectionFlags.cs:243 | The default name is the context, a `-` and the namespace |
| CommandLineConnection.QuitCommand | src/Telepresence.NET/Connection/Connection.cs:133-144 | `quit`, with `--stop-daemons` iff asked |
| CommandLineConnection.Reassigned | src/Telepresence.NET/Connection/Connection.cs:36 | Changing one property and its dictionary entry keeps the dictionary an exact record of every property |
| CommandLineConnection.Connection.Create | src/Telepresence.NET/Connection/Connection.cs:26-33 | The named constructor validates the name and, on success, records `--name` as the only argument |
| CommandLineConnection.Connection.Put | src/Telepresence.NET/Connection/ConnectionFlags.cs:37 | Recording a property's words keeps the dictionary a faithful record |
| CommandLineConnection.Connection.Drop | src/Telepresence.NET/Connection/ConnectionFlags.cs:19 | Removing a cleared property keeps the dictionary a faithful record |
| CommandLineConnection.Connection.SetText | src/Telepresence.NET/Connection/ConnectionKubernetesFlags.cs:10-32 | A plain text flag records `flag, value`, or is removed when null |
| CommandLineConnection.Connection.SetSwitch | src/Telepresence.NET/Connection/ConnectionFlags.cs:78-99 | A switch records its bare flag whatever its value, or is removed when null |
| CommandLineConnection.Connection.StoreList | src/Telepresence.NET/Connection/ConnectionFlags.cs:37 | A validated list and its words are recorded together |
| CommandLineConnection.Connection.SetCidrList | src/Telepresence.NET/Connection/ConnectionFlags.cs:11-39 | An empty list raises out-of-range with nothing changed; otherwise records the flag and the comma-joined non-blank items |
| CommandLineConnection.Connection.SetExpose | src/Telepresence.NET/Connection/ConnectionFlags.cs:105-132 | An empty list raises; otherwise records `--expose, item` per non-blank item |
| CommandLineConnection.Connection.SetAsGroups | src/Telepresence.NET/Connection/ConnectionKubernetesFlags.cs:38-65 | An empty list raises; otherwise records `--as-group, item` per item, blanks included |
| CommandLineConnection.Connection.SetMappedNamespaces | src/Telepresence.NET/Connection/ConnectionFlags.cs:202-234 | Refused lists change nothing; accepted ones record the joined words |
| CommandLineConnection.Connection.SetManagerNamespace | src/Telepresence.NET/Connection/ConnectionFlags.cs:166-196 | Refused values change nothing; accepted ones record `--manager-namespace` |
| CommandLineConnection.Connection.InitName | src/Telepresence.NET/Connection/ConnectionFlags.cs:241-267 | A refused name changes nothing; an accepted one is stored and recorded |
| CommandLineConnection.Connection.InitNamespace | src/Telepresence.NET/Connection/ConnectionFlags.cs:274-300 | A refused namespace changes nothing; an accepted one is stored and recorded |
| CommandLineConnection.Connection.InitContext | src/Telepresence.NET/Connection/ConnectionKubernetesFlags.cs:241-259 | A blank context raises; an accepted one is stored and recorded |
| CommandLineConnection.Connection.GetContext | src/Telepresence.NET/Connection/ConnectionKubernetesFlags.cs:243 | The context is the set one, else the kubeconfig's current context, memoised without being recorded |
| CommandLineConnection.Connection.GetNamespace | src/Telepresence.NET/Connection/ConnectionFlags.cs:276 | The namespace is the set one, else the kubeconfig's, memoised without being recorded |
| CommandLineConnection.Connection.GetName | src/Telepresence.NET/Connection/ConnectionFlags.cs:243 | The name is the set one, else `context-namespace` from the memoised getters, and is memoised |
| CommandLineConnection.Connection.Connect | src/Telepresence.NET/Connection/Connection.cs:42-101 | Once connected nothing runs; otherwise `connect` plus every recorded word runs, and the flag is set iff the run completed |
| CommandLineConnection.Connection.QuitWith | src/Telepresence.NET/Connection/Connection.cs:117-173 | Runs `quit` as asked; a completed quit clears the connected flag (corrected) |
| CommandLineConnection.Connection.QuitWithAsWritten | src/Telepresence.NET/Connection/Connection.cs:167 | As written, a completed quit sets the connected flag |
| CommandLineConnection.Connection.Disconnect | src/Telepresence.NET/Connection/Connection.cs:107-108 | Runs `quit` without stopping the daemons, through `Quit(bool)` as written: the connected flag is set afterwards iff it was set or the quit completed |
| CommandLineConnection.Connection.Quit | src/Telepresence.NET/Connection/Connection.cs:114-115 | Runs `quit --stop-daemons`, through `Quit(bool)` as written: the connected flag is set afterwards iff it was set or the quit completed |
| CommandLineConnection.StoredOnConnectLine | src/Telepresence.NET/Connection/Connection.cs:71-72 | Every property that is set appears, as its own words, on the `connect` command line |
| CommandLineConnection.QuitThenConnectAsWritten | src/Telepresence.NET/Connection/Connection.cs:167 | As written, connect after a completed quit runs nothing |
| CommandLineConnection.QuitThenConnect | src/Telepresence.NET/Connection/Connection.cs:44-45 | With the corrected flag, connect after quit runs `connect` again |
| CommandLineIntercept.PairWords | src/Telepresence.NET/Intercept/InterceptFlags.cs:99-103 | Pair flags record two words per non-blank-valued pair; preview headers record one flag and one joined word |
| CommandLineIntercept.PairWordsAt | src/Telepresence.NET/Intercept/InterceptFlags.cs:99-103 | The words alternate the flag with `key=value` for each kept pair, in order |
| CommandLineIntercept.CheckAddress | src/Telepresence.NET/Intercept/InterceptFlags.cs:27-30 | The address passes iff it is a dotted quad or a placeholder |
| CommandLineIntercept.CheckInterceptName | src/Telepresence.NET/Intercept/Intercept.cs:46-52 | Passes iff not blank and an identifier or placeholder; blank raises argument-null and a mismatch raises the pattern message |
| CommandLineIntercept.LeaveCommand | src/Telepresence.NET/Intercept/Intercept.cs:211-227 | `leave name`, followed by `--use value` iff `Use` is not blank |
| CommandLineIntercept.Without | src/Telepresence.NET/Intercept/Intercept.cs:139-140 | A pair is kept iff it occurs in the input with a key that is not excluded |
| CommandLineIntercept.WithoutMultiplicity | src/Telepresence.NET/Intercept/Intercept.cs:139-140 | Each pair with a kept key is kept as often as it occurs, and none with an excluded key |
| CommandLineIntercept.WithoutAppend | src/Telepresence.NET/Intercept/Intercept.cs:139-140 | The filter keeps order: filtering a concatenation concatenates the filtered parts |
| CommandLineIntercept.WithoutLastValue | src/Telepresence.NET/Intercept/Intercept.cs:139-140 | Filtering excluded keys does not change the last value of a key that is kept |
| CommandLineIntercept.Overrides | src/Telepresence.NET/Intercept/Intercept.cs:133-144 | No includes give no overrides; no excludes give all includes; otherwise the non-excluded includes |
| CommandLineIntercept.InjectionPath | src/Telepresence.NET/Intercept/Intercept.cs:122-152 | The file injected is `EnvFile` when set, else `EnvJson`, else none |
| CommandLineIntercept.Injection | src/Telepresence.NET/Intercept/Intercept.cs:122-151 | A missing output file raises unable-to-start; on success the output file is deleted and no other file changes |
| CommandLineIntercept.InjectionPrecedence | src/Telepresence.NET/Intercept/Intercept.cs:130-144 | A kept override wins over the file's value; an excluded key keeps the file's value |
| CommandLineIntercept.ExcludedStillImported | src/Telepresence.NET/Intercept/Intercept.cs:130-144 | With no includes, excluded variables are still imported from the file |
| CommandLineIntercept.Inject | src/Telepresence.NET/Intercept/Intercept.cs:122-151 | Injection leaves the environment and files as `Injection` says, and changes nothing when it fails |
| CommandLineIntercept.Reassigned | src/Telepresence.NET/Intercept/Intercept.cs:36 | Changing one property and its entry keeps the dictionary an exact record of every property |
| CommandLineIntercept.Intercept.Create | src/Telepresence.NET/Intercept/Intercept.cs:27-34 | The named constructor validates the name; no argument is recorded |
| CommandLineIntercept.Intercept.Put | src/Telepresence.NET/Intercept/InterceptFlags.cs:37-41 | Recording a property's words keeps the dictionary a faithful record |
| CommandLineIntercept.Intercept.Drop | src/Telepresence.NET/Intercept/InterceptFlags.cs:23 | Removing a cleared property keeps the dictionary a faithful record |
| CommandLineIntercept.Intercept.SetText | src/Telepresence.NET/Intercept/InterceptFlags.cs:49-71 | A plain text flag records `flag, value`, or is removed when null |
| CommandLineIntercept.Intercept.SetAddress | src/Telepresence.NET/Intercept/InterceptFlags.cs:15-42 | A refused address raises and changes nothing; an accepted one records `--address` |
| CommandLineIntercept.Intercept.SetSwitch | src/Telepresence.NET/Intercept/InterceptFlags.cs:414-435 | A switch records its bare flag whatever its value |
| CommandLineIntercept.Intercept.SetNumber | src/Telepresence.NET/Intercept/InterceptFlags.cs:497-521 | A number records `flag` and its decimal text |
| CommandLineIntercept.Intercept.StorePairs | src/Telepresence.NET/Intercept/InterceptFlags.cs:99-105 | A pair list and its words are recorded together |
| CommandLineIntercept.Intercept.SetPairs | src/Telepresence.NET/Intercept/InterceptFlags.cs:77-107 | Docker build options without `DockerBuild` raise argument-null, an empty list raises out-of-range, otherwise the pair words are recorded |
| CommandLineIntercept.Intercept.SetToPod | src/Telepresence.NET/Intercept/InterceptFlags.cs:822-849 | An empty list raises; otherwise `--to-pod, item` per non-blank item |
| CommandLineIntercept.Intercept.SetInjectEnvironment | src/Telepresence.NET/Intercept/InterceptCustomFlags.cs:17-31 | Stores the switch; it never reaches the command line |
| CommandLineIntercept.Intercept.SetIncludeEnvironment | src/Telepresence.NET/Intercept/InterceptCustomFlags.cs:38 | Stores the manual overrides |
| CommandLineIntercept.Intercept.SetExcludeEnvironment | src/Telepresence.NET/Intercept/InterceptCustomFlags.cs:45 | Stores the excluded keys |
| CommandLineIntercept.Intercept.InitName | src/Telepresence.NET/Intercept/Intercept.cs:44-55 | A refused name changes nothing; an accepted one is stored, and not recorded |
| CommandLineIntercept.Intercept.Leave | src/Telepresence.NET/Intercept/Intercept.cs:195-254 | Runs `leave` with the name (set or default) iff the name can be read; every exception is caught |
| CommandLineIntercept.Intercept.RunIntercept | src/Telepresence.NET/Intercept/Intercept.cs:82-115 | Runs `intercept name` followed by every recorded word |
| CommandLineIntercept.Intercept.Start | src/Telepresence.NET/Intercept/Intercept.cs:62-190 | Leaves first when injecting; runs `intercept`; injects the file only after a completed run; every exception is caught and reported |
| CommandLineIntercept.StoredOnInterceptLine | src/Telepresence.NET/Intercept/Intercept.cs:93-94 | Every property that is set appears, as its own words, on the `intercept` command line |
| HeaderPropagation.TryAddedValue | src/Telepresence.NET/HeaderPropagation/Mvc/Filters/TelepresenceActionFilter.cs:35-36 | `TryAdd` keeps the first value of a header; a new name gets the value |
| HeaderPropagation.TryAddedUnique | src/Telepresence.NET/HeaderPropagation/TelepresenceContext.cs:8 | The context dictionary's names stay unique |
| HeaderPropagation.CapturedValue | src/Telepresence.NET/HeaderPropagation/Mvc/Filters/TelepresenceActionFilter.cs:27-39 | After capture a name holds its earlier value, or the request's value if it contains `x-telepresence` |
| HeaderPropagation.CapturedUnique | src/Telepresence.NET/HeaderPropagation/Mvc/Filters/TelepresenceActionFilter.cs:27-39 | Capture keeps the names unique |
| HeaderPropagation.Propagated | src/Telepresence.NET/HeaderPropagation/MassTransit/Filters/TelepresencePublishFilter.cs:12-18 | After propagation a message header holds the context's value where there is one, else its own |
| HeaderPropagation.TelepresenceContext.TryAdd | src/Telepresence.NET/HeaderPropagation/Mvc/Filters/TelepresenceActionFilter.cs:35-36 | Adds iff the name is absent |
| HeaderPropagation.Capture | src/Telepresence.NET/HeaderPropagation/Mvc/Filters/TelepresenceActionFilter.cs:27-39 | The loop over request headers leaves the context as the captured headers |
| HeaderPropagation.ActionFilter.OnActionExecuting | src/Telepresence.NET/HeaderPropagation/Mvc/Filters/TelepresenceActionFilter.cs:14-15 | The synchronous hook captures the request's Telepresence headers |
| HeaderPropagation.ActionFilter.OnActionExecutionAsync | src/Telepresence.NET/HeaderPropagation/Mvc/Filters/TelepresenceActionFilter.cs:21-25 | The asynchronous hook captures, then calls the action once |
| HeaderPropagation.OutboundRequest.TryAddWithoutValidation | src/Telepresence.NET/HeaderPropagation/Mvc/DelegatingHandlers/TelepresenceDelegatingHandler.cs:23-24 | Appends one header to the outgoing request |
| HeaderPropagation.DelegatingSendAsync | src/Telepresence.NET/HeaderPropagation/Mvc/DelegatingHandlers/TelepresenceDelegatingHandler.cs:11-27 | Every captured header is appended to the outgoing request, or none without a context; the request is forwarded once |
| HeaderPropagation.MessageHeaders.Set | src/Telepresence.NET/HeaderPropagation/MassTransit/Filters/TelepresencePublishFilter.cs:14-15 | Setting a message header changes that header only |
| HeaderPropagation.PropagateOnMessage | src/Telepresence.NET/HeaderPropagation/MassTransit/Filters/TelepresencePublishFilter.cs:12-18 | Every context header is set on the published message, which is passed on once; `TelepresenceSendFilter.cs:12-18` does the same for sent messages |
| HeaderPropagation.ConsumeFilterSend | src/Telepresence.NET/HeaderPropagation/MassTransit/Filters/TelepresenceConsumeFilter.cs:20-31 | Captures the message's Telepresence headers, then consumes iff `/consume-here` says so; a failed call consumes nothing and raises |
| LegacyMessaging.PublishedInterceptAs | src/Telepresence.NET/Messages/MassTransit/Filters/TelepresencePublishFilter.cs:15-27 | A non-blank message header, else a non-blank HTTP header, else nothing; never a blank value |
| LegacyMessaging.SentInterceptAs | src/Telepresence.NET/Messages/MassTransit/Filters/TelepresenceSendFilter.cs:15-25 | The message header whenever present, else the HTTP header, set only when not blank |
| LegacyMessaging.BlankMessageHeaderDiffers | src/Telepresence.NET/Messages/MassTransit/Filters/TelepresenceSendFilter.cs:21-22 | A blank message header makes the send filter drop a non-blank HTTP value that the publish filter keeps |
| LegacyMessaging.AgreeWithoutBlanks | src/Telepresence.NET/Messages/MassTransit/Filters/TelepresencePublishFilter.cs:17-24 | Without blank headers the two filters choose the same value |
| LegacyMessaging.PublishFilterSend | src/Telepresence.NET/Messages/MassTransit/Filters/TelepresencePublishFilter.cs:13-34 | The step-by-step filter sets exactly the chosen value and passes the message on once |
| LegacyMessaging.SendFilterSend | src/Telepresence.NET/Messages/MassTransit/Filters/TelepresenceSendFilter.cs:13-32 | The step-by-step filter sets exactly the chosen value and passes the message on once |
| LegacyMessaging.ForwardedHeaders | src/Telepresence.NET/Messages/MassTransit/Filters/TelepresenceConsumeFilter.cs:15-18 | Forwards only the intercept-as header, iff the message has it |
| LegacyMessaging.ConsumeFilterSend | src/Telepresence.NET/Messages/MassTransit/Filters/TelepresenceConsumeFilter.cs:13-31 | Always asks `/consume-here`; consumes iff it says yes; a failed call raises |
| LegacyMessaging.DelegatingHandler.SendAsync | src/Telepresence.NET/DelegatingHandlers/TelepresenceDelegatingHandler.cs:27-42 | Outside Development or without a context nothing is added; otherwise the configured header is copied when present; forwarded once |
| LegacyMessaging.HeaderValue | src/Telepresence.NET/Messages/MassTransit/Filters/TelepresencePublishFilter.cs:18 | A request header is found iff some entry's name equals the asked one up to ASCII case, and its value is that entry's |
| LegacyMessaging.HeaderNameCaseIgnored | src/Telepresence.NET/Messages/MassTransit/Filters/TelepresenceSendFilter.cs:18 | `X-Telepresence-Intercept-As` is found under the lower-case header name |
| RestfulApi.Endpoint | src/Telepresence.NET/RestfulApi/TelepresenceApiService.cs:51-54 | `http://localhost:port/route`, with `?path=` and the path appended iff it is not blank |
| RestfulApi.CallerHeaders | src/Telepresence.NET/RestfulApi/TelepresenceApiService.cs:58-62 | The intercept-id header first when set, then every context header in order |
| RestfulApi.Call | src/Telepresence.NET/RestfulApi/TelepresenceApiService.cs:45-65 | Without a port nothing is sent; a port `Uri` refuses raises; otherwise the answer decides |
| RestfulApi.Healthz | src/Telepresence.NET/RestfulApi/TelepresenceApiService.cs:18-41 | Healthy iff a port is set and the agent answers with success; unreachable raises; the older `Services/TelepresenceApiService.cs:22-45` is identical |
| RestfulApi.ConsumeHereDeclinesOnlyOnAnswer | src/Telepresence.NET/RestfulApi/TelepresenceApiService.cs:43-81 | Declines iff the agent answers success with a body lacking `true`; no port consumes; only an unreachable agent or bad port raises |
| RestfulApi.ConsentExamples | src/Telepresence.NET/RestfulApi/TelepresenceApiService.cs:77-80 | `True\n` consumes, `false\n` declines, a failed status consumes |
| RestfulApi.AddCallerHeaders | src/Telepresence.NET/RestfulApi/TelepresenceApiService.cs:56-62 | The loop builds the request with exactly the caller headers |
| RestfulApi.ConsumeHere | src/Telepresence.NET/RestfulApi/TelepresenceApiService.cs:43-81 | The step-by-step call returns the consume decision |
| RestfulApi.InterceptInfoOnlyFromSuccess | src/Telepresence.NET/RestfulApi/TelepresenceApiService.cs:107-118 | Information is returned iff the agent answers success with a body that deserialises to an object |
| RestfulApi.GetInterceptInfo | src/Telepresence.NET/RestfulApi/TelepresenceApiService.cs:83-119 | The step-by-step call returns the intercept information |
| LegacyApiService.ConsumeHere | src/Telepresence.NET/Services/TelepresenceApiService.cs:85-128 | The older call forwards the given headers only when there are some, then decides as the current one |
| LegacyApiService.InterceptInfoResult | src/Telepresence.NET/Services/TelepresenceApiService.cs:130-158 | The older call sends a bare GET with no headers |
| LegacyApiService.NoInterceptIdForwarded | src/Telepresence.NET/Services/TelepresenceApiService.cs:143-144 | Without an intercept id and context headers the older and current calls agree |
| OutputHandlers.Payload | src/Telepresence.NET/InterceptSpec/Handlers/ExternalHandlers/StandardOutputHandler.cs:24 | The payload is the line up to and including its last `}`, or empty without one |
| OutputHandlers.PayloadStartsWithBrace | src/Telepresence.NET/InterceptSpec/Handlers/ExternalHandlers/StandardOutputHandler.cs:22-24 | A payload line's payload starts with `{` |
| OutputHandlers.PayloadExample | src/Telepresence.NET/InterceptSpec/Handlers/ExternalHandlers/StandardOutputHandler.cs:24 | Trailing text after the JSON object is cut |
| OutputHandlers.FirstPayload | src/Telepresence.NET/InterceptSpec/Handlers/ExternalHandlers/StandardOutputHandler.cs:19-22 | Finds the first line that looks like the JSON payload |
| OutputHandlers.FindPayload | src/Telepresence.NET/InterceptSpec/Handlers/ExternalHandlers/StandardOutputHandler.cs:19-22 | The loop over output lines finds that first payload line |
| OutputHandlers.HandleStandardOutput | src/Telepresence.NET/InterceptSpec/Handlers/ExternalHandlers/StandardOutputHandler.cs:13-48 | Starts the process once; a failed start raises with nothing loaded; otherwise loads the first payload line's environment, and a second payload line is loaded and then crashes the process |
| OutputHandlers.HandleFileOutput | src/Telepresence.NET/InterceptSpec/Handlers/ExternalHandlers/FileOutputHandler.cs:9-26 | Without a path does nothing; waits for the file, raises if missing, loads it and deletes it |
| OutputLoader.Populated | src/Telepresence.NET/InterceptSpec/OutputLoader.cs:41-48 | An environment counts only when present and non-empty |
| OutputLoader.TopLevelWins | src/Telepresence.NET/InterceptSpec/OutputLoader.cs:41-48 | A variable in the top-level environment ends with that value |
| OutputLoader.FirstInterceptFallback | src/Telepresence.NET/InterceptSpec/OutputLoader.cs:41-44 | A variable only the first intercept names ends with that intercept's value |
| OutputLoader.OnlyFirstIntercept | src/Telepresence.NET/InterceptSpec/OutputLoader.cs:41-44 | Intercepts after the first are ignored |
| OutputLoader.FileLikeString | src/Telepresence.NET/InterceptSpec/OutputLoader.cs:14-31 | A readable JSON file loads as its text would |
| OutputLoader.FileDispatch | src/Telepresence.NET/InterceptSpec/OutputLoader.cs:14-31 | Missing or unknown files load nothing; YAML and dotenv raise not-implemented |
| OutputLoader.ApplyOutput | src/Telepresence.NET/InterceptSpec/OutputLoader.cs:33-49 | Malformed output raises with nothing set; otherwise the selected entries are applied |
| OutputLoader.LoadEnvironmentFromString | src/Telepresence.NET/InterceptSpec/OutputLoader.cs:8-9 | The command's text output is applied as the JSON document says |
| OutputLoader.LoadEnvironmentFromFile | src/Telepresence.NET/InterceptSpec/OutputLoader.cs:14-31 | The output file is applied as `FileEntries` says, or nothing changes on failure |
| SpecValues.FindMember | src/Telepresence.NET/InterceptSpec/Converters/YamlStringEnumConverter.cs:16-29 | Finds an enumeration member by name, or reports that none has it |
| SpecValues.WriteYaml | src/Telepresence.NET/InterceptSpec/Converters/YamlStringEnumConverter.cs:16-29 | A null value with no member of that name writes the empty string |
| SpecValues.ReadYaml | src/Telepresence.NET/InterceptSpec/Converters/YamlStringEnumConverter.cs:13-14 | Reading raises not-implemented |
| SpecValues.WireStrings | src/Telepresence.NET/InterceptSpec/Handlers/OutputFormat.cs:5-9 | `Json`/`Yaml` write `json`/`yaml`, and the shells of `Shell.cs:5-10` write `bash`/`zsh`/`sh` |
| SpecValues.WriteYamlFallback | src/Telepresence.NET/InterceptSpec/Converters/YamlStringEnumConverter.cs:16-29 | With no matching member carrying a wire value, the text is written as is |
| SpecValues.WriteYamlMemberName | src/Telepresence.NET/InterceptSpec/Converters/YamlStringEnumConverter.cs:16-29 | A member without a wire value writes its own name |
| SpecValues.WithIngressPort | src/Telepresence.NET/InterceptSpec/Ingress.cs:21-31 | Accepts a missing port or 1..65535, changing only the port |
| SpecValues.WithRun | src/Telepresence.NET/InterceptSpec/Handlers/Script.cs:20-26 | A blank command raises argument-null; otherwise only `Run` changes |
| SpecValues.RunOf | src/Telepresence.NET/InterceptSpec/Handlers/Script.cs:14-18 | Reading an unset or blank command raises argument-null |
| SpecValues.RunRoundTrip | src/Telepresence.NET/InterceptSpec/Handlers/Script.cs:12-28 | A command that was set reads back unchanged |
| SpecValues.UnsetRunThrows | src/Telepresence.NET/InterceptSpec/Handlers/Script.cs:14-18 | A fresh script's command cannot be read |
| SpecValues.HandleScript | src/Telepresence.NET/InterceptSpec/Handlers/Script.cs:32-35 | Script handling raises not-implemented, as in the older copy `Models/Intercept/Handlers/Script.cs:32-35` |
| SpecValues.WithOutputPath | src/Telepresence.NET/InterceptSpec/Handlers/External.cs:28-56 | Blank changes nothing; `stdout`/`stderr` (any case) select those strategies; anything else selects a file at its full path |
| SpecValues.DefaultExternalIsStdout | src/Telepresence.NET/InterceptSpec/Handler.cs:103-109 | The default external handler is JSON on standard output |
| SpecValues.OutputPathExamples | src/Telepresence.NET/InterceptSpec/Handlers/External.cs:28-56 | `STDOUT` is standard output, `out.json` a file, blank nothing |
| SpecValues.ExternalTarget | src/Telepresence.NET/InterceptSpec/Handlers/External.cs:58-59 | Handling without an output strategy raises null-reference |
| SpecEntities.MemoName | src/Telepresence.NET/InterceptSpec/WorkloadIntercept.cs:68 | A set name wins, else the normalised entry-assembly name |
| SpecEntities.MemoUpdated | src/Telepresence.NET/InterceptSpec/InterceptSpecification.cs:49 | A set name stays; a default is memoised iff it can be read |
| SpecEntities.FirstFree | src/Telepresence.NET/InterceptSpec/WorkloadIntercept.cs:251-267 | The first draw not in use, or none iff every draw is in use |
| SpecEntities.GenerateRandomLocalPort | src/Telepresence.NET/InterceptSpec/WorkloadIntercept.cs:251-267 | The loop returns the first free draw, which lies in 55000..65534 and is not in use |
| SpecEntities.DefaultHeaders | src/Telepresence.NET/InterceptSpec/WorkloadIntercept.cs:269-278 | One header, `x-telepresence-intercept-as`, carrying the user name |
| SpecEntities.WorkloadIntercept.InitEnabled | src/Telepresence.NET/InterceptSpec/WorkloadIntercept.cs:38 | Stores `Enabled` |
| SpecEntities.WorkloadIntercept.InitHandler | src/Telepresence.NET/InterceptSpec/WorkloadIntercept.cs:46-59 | Validated as a limited identifier; stored iff accepted |
| SpecEntities.WorkloadIntercept.InitName | src/Telepresence.NET/InterceptSpec/WorkloadIntercept.cs:69-82 | A blank name is ignored without error; otherwise validated and stored iff accepted |
| SpecEntities.WorkloadIntercept.InitLocalPort | src/Telepresence.NET/InterceptSpec/WorkloadIntercept.cs:93-102 | Refuses ports outside 1..65535; stores an accepted one |
| SpecEntities.WorkloadIntercept.InitPort | src/Telepresence.NET/InterceptSpec/WorkloadIntercept.cs:156-165 | Refuses ports outside 1..65535; stores an accepted one |
| SpecEntities.WorkloadIntercept.InitLocalAddress | src/Telepresence.NET/InterceptSpec/WorkloadIntercept.cs:108-123 | Blank is ignored; otherwise a dotted quad or not-an-IP error |
| SpecEntities.WorkloadIntercept.InitService | src/Telepresence.NET/InterceptSpec/WorkloadIntercept.cs:133-148 | Blank is ignored; otherwise a 2..63 lower-case name |
| SpecEntities.WorkloadIntercept.InitPath | src/Telepresence.NET/InterceptSpec/WorkloadIntercept.cs:222-237 | Stores or clears that path filter only |
| SpecEntities.WorkloadIntercept.InitHeaders | src/Telepresence.NET/InterceptSpec/WorkloadIntercept.cs:204-210 | An empty list is ignored; a non-empty one is stored |
| SpecEntities.WorkloadIntercept.InitGlobal | src/Telepresence.NET/InterceptSpec/WorkloadIntercept.cs:175-188 | Refused with the mutually-exclusive error iff a header or path filter is already set |
| SpecEntities.WorkloadIntercept.GetName | src/Telepresence.NET/InterceptSpec/WorkloadIntercept.cs:68 | Reads and memoises the name or its default |
| SpecEntities.WorkloadIntercept.GetHandler | src/Telepresence.NET/InterceptSpec/WorkloadIntercept.cs:45 | The handler defaults to the intercept's (memoised) name |
| SpecEntities.WorkloadIntercept.GetService | src/Telepresence.NET/InterceptSpec/WorkloadIntercept.cs:135 | The service defaults to the intercept's (memoised) name |
| SpecEntities.WorkloadIntercept.GetLocalPort | src/Telepresence.NET/InterceptSpec/WorkloadIntercept.cs:92 | A set port is kept; otherwise the first free random draw is memoised |
| SpecEntities.WorkloadIntercept.GetHeaders | src/Telepresence.NET/InterceptSpec/WorkloadIntercept.cs:203 | The headers default to the intercept-as header, memoised |
| SpecEntities.WorkloadIntercept.Serialize | src/Telepresence.NET/InterceptSpec/WorkloadIntercept.cs:45-203 | Reading an intercept raises iff no name can be found, with that error; afterwards its memo fields are what `SerializedIntercept` gives |
| SpecEntities.SerializedIntercept | src/Telepresence.NET/InterceptSpec/WorkloadIntercept.cs:45-203 | With no name found nothing changes; otherwise every memo field is filled, a stored value kept, `Handler` and `Service` defaulting to the name, the port drawn and the headers defaulted |
| SpecEntities.SerializedInterceptStable | src/Telepresence.NET/InterceptSpec/WorkloadIntercept.cs:45-203 | Reading twice leaves what reading once leaves, a filled intercept is not changed, and whether the name can be found does not change |
| SpecEntities.GlobalOrderMatters | src/Telepresence.NET/InterceptSpec/WorkloadIntercept.cs:180-185 | Headers then `Global` is refused, but `Global` then headers stores both |
| SpecEntities.Workload.InitName | src/Telepresence.NET/InterceptSpec/Workload.cs:32-45 | Validated as a limited lower-case name; stored iff accepted |
| SpecEntities.Workload.GetName | src/Telepresence.NET/InterceptSpec/Workload.cs:31 | Reads and memoises the name or its default |
| SpecEntities.Workload.InitIntercepts | src/Telepresence.NET/InterceptSpec/Workload.cs:59-70 | Refuses lists with no intercepts or more than 16 |
| SpecEntities.Workload.GetIntercepts | src/Telepresence.NET/InterceptSpec/Workload.cs:54-57 | Defaults to one new intercept named as the workload; a name it refuses raises |
| SpecEntities.Workload.Serialize | src/Telepresence.NET/InterceptSpec/Workload.cs:29-57 | Reading a workload succeeds iff its name, its intercept list and every intercept's name can be read; the name is memoised; a default list is one fresh intercept read from the default memo; each stored intercept keeps its fields or takes its read memo; success leaves every field filled |
| SpecEntities.SerializeIntercepts | src/Telepresence.NET/InterceptSpec/Workload.cs:52-57 | Reads the intercepts in turn: succeeds iff every name can be found; each intercept keeps its fields or takes its read memo; filled ones are unchanged; success fills them all |
| SpecEntities.DefaultInterceptMemo | src/Telepresence.NET/InterceptSpec/Workload.cs:54-57 | The default intercept starts with only a name: the workload's, or none when that is blank |
| SpecEntities.WorkloadNameFitsIntercept | src/Telepresence.NET/InterceptSpec/Workload.cs:54-57 | Any accepted workload name is also an accepted intercept name |
| SpecEntities.Handler.InitName | src/Telepresence.NET/InterceptSpec/Handler.cs:41-54 | Validated as a limited identifier; stored iff accepted |
| SpecEntities.Handler.GetName | src/Telepresence.NET/InterceptSpec/Handler.cs:40 | Reads and memoises the name or its default |
| SpecEntities.Handler.InitEnvironment | src/Telepresence.NET/InterceptSpec/Handler.cs:64-74 | Refused iff some variable name is not an environment-variable name |
| SpecEntities.Handler.InitDocker | src/Telepresence.NET/InterceptSpec/Handler.cs:86 | Stores whether a Docker handler is set |
| SpecEntities.Handler.InitScript | src/Telepresence.NET/InterceptSpec/Handler.cs:91 | Stores the script handler |
| SpecEntities.Handler.InitExternal | src/Telepresence.NET/InterceptSpec/Handler.cs:113 | Stores the external handler |
| SpecEntities.Handler.GetExternal | src/Telepresence.NET/InterceptSpec/Handler.cs:98-112 | Defaults to JSON on standard output, memoised |
| SpecEntities.Handler.Handle | src/Telepresence.NET/InterceptSpec/Handler.cs:120-121 | Dispatches to its output strategy |
| SpecEntities.HandleStartsAtMostOnce | src/Telepresence.NET/InterceptSpec/Handler.cs:120-121 | Handling starts the command at most once |
| SpecEntities.Handler.Serialize | src/Telepresence.NET/InterceptSpec/Handler.cs:38-113 | Reading a handler succeeds iff a name is found and a set `Script` has a `Run`; its fields are then what `SerializedHandler` gives |
| SpecEntities.SerializedHandler | src/Telepresence.NET/InterceptSpec/Handler.cs:38-113 | The name is memoised when found; the JSON-on-standard-output strategy is installed only when the read reaches `External` and none was installed |
| SpecEntities.SerializedHandlerStable | src/Telepresence.NET/InterceptSpec/Handler.cs:38-113 | Reading twice leaves what reading once leaves, and does not change whether the handler can be read |
| SpecEntities.ParityMeansOneOrAll | src/Telepresence.NET/InterceptSpec/InterceptSpecification.cs:115-125 | The XOR check admits exactly one handler kind, or all three |
| SpecEntities.HandlerCheckReduces | src/Telepresence.NET/InterceptSpec/InterceptSpecification.cs:115-125 | With `External` never null the check is "Docker iff Script" |
| SpecEntities.DefaultConnectionName | src/Telepresence.NET/InterceptSpec/Connection.cs:68-70 | `context-namespace` with each `_` turned into `-` and lower-cased, so no `_` or upper-case letter remains |
| SpecEntities.DefaultConnectionNameUnchecked | src/Telepresence.NET/InterceptSpec/Connection.cs:68-79 | A context containing `.` gives a default name that the setter's pattern refuses |
| SpecEntities.Connection.InitContext | src/Telepresence.NET/InterceptSpec/Connection.cs:52-54 | Stores the context |
| SpecEntities.Connection.InitName | src/Telepresence.NET/InterceptSpec/Connection.cs:71-84 | Validated as a limited lower-case name; stored iff accepted |
| SpecEntities.Connection.InitNamespace | src/Telepresence.NET/InterceptSpec/Connection.cs:95-105 | Validated as a bounded label; stored iff accepted |
| SpecEntities.Connection.InitManagerNamespace | src/Telepresence.NET/InterceptSpec/Connection.cs:115-125 | Blank raises argument-null; otherwise validated as a bounded label |
| SpecEntities.Connection.InitMappedNamespaces | src/Telepresence.NET/InterceptSpec/Connection.cs:135-145 | Null raises argument-null; accepted iff every namespace is a bounded label |
| SpecEntities.Connection.GetNamespace | src/Telepresence.NET/InterceptSpec/Connection.cs:94 | The namespace defaults to the kubeconfig's, memoised |
| SpecEntities.Connection.GetName | src/Telepresence.NET/InterceptSpec/Connection.cs:68-70 | The name defaults to the context and (memoised) namespace |
| SpecEntities.Connection.Serialize | src/Telepresence.NET/InterceptSpec/Connection.cs:65-100 | Reading a connection never raises; it memoises the namespace (the set one, else the kubeconfig's) and the name (the set one, else the default from the context and that namespace) |
| InterceptSpecifications.SpecificationPathLayout | src/Telepresence.NET/InterceptSpec/InterceptSpecification.cs:292-293 | The path is the directory, a separator and `name-intercept-specification.yaml`; that file name holds a separator iff the specification name does, so the file lies directly in its directory iff the name has no `/` |
| InterceptSpecifications.KestrelUrl | src/Telepresence.NET/InterceptSpec/InterceptSpecification.cs:184-185 | `http://+:` followed by the port |
| InterceptSpecifications.KestrelUrlPort | src/Telepresence.NET/InterceptSpec/InterceptSpecification.cs:184-185 | The port reads back out of the Kestrel URL |
| InterceptSpecifications.DefaultWorkloadCheck | src/Telepresence.NET/InterceptSpec/InterceptSpecification.cs:80-83 | The default workload accepts the specification name iff it is a limited lower-case name |
| InterceptSpecifications.DefaultHandlerCheck | src/Telepresence.NET/InterceptSpec/InterceptSpecification.cs:102-105 | The default handler accepts it iff it is a limited identifier |
| InterceptSpecifications.DefaultWorkloadRejects | src/Telepresence.NET/InterceptSpec/InterceptSpecification.cs:80-83 | An upper-case letter or `_` makes the default workload fail |
| InterceptSpecifications.DefaultHandlerAccepts | src/Telepresence.NET/InterceptSpec/InterceptSpecification.cs:102-105 | Any limited identifier is accepted by the default handler |
| InterceptSpecifications.PlaceholderRejectedByDefaultHandler | src/Telepresence.NET/InterceptSpec/InterceptSpecification.cs:55 | A placeholder name the specification accepts is refused by the default handler |
| InterceptSpecifications.SerializeFirst | src/Telepresence.NET/InterceptSpec/InterceptSpecification.cs:272-285 | Reads the first workload: succeeds iff it is serializable; the other workloads stay as readable as they were; each stored intercept keeps its fields or takes its read memo; created intercepts are fresh |
| InterceptSpecifications.SerializeWorkloads | src/Telepresence.NET/InterceptSpec/InterceptSpecification.cs:272-285 | Reads the workloads in turn: succeeds iff every workload is serializable; every stored intercept keeps its fields or takes its read memo, and filled ones are unchanged; success leaves every workload fully read |
| InterceptSpecifications.SerializeHandlers | src/Telepresence.NET/InterceptSpec/InterceptSpecification.cs:272-285 | Reads the handlers in turn: succeeds iff every handler is serializable; each keeps its fields or takes its read ones, and all take them on success |
| InterceptSpecifications.DefaultWorkloadSerializable | src/Telepresence.NET/InterceptSpec/InterceptSpecification.cs:80-83 | The default workload `new() { Name = Name }` reads to its end once its name check passes |
| InterceptSpecifications.HandledThenBoundOutcome | src/Telepresence.NET/InterceptSpec/InterceptSpecification.cs:179-185 | After the handler and the Kestrel step, the command ran at most once, and a completed start has both variables naming the port |
| InterceptSpecifications.StartLocated | src/Telepresence.NET/InterceptSpec/InterceptSpecification.cs:179-185 | Runs the handler and, when it completed, sets `DOTNET_URLS` and `ASPNETCORE_URLS` to the intercept's memoised local port; a stored port is kept |
| InterceptSpecifications.WriteSpecification | src/Telepresence.NET/InterceptSpec/InterceptSpecification.cs:295-298 | Creates the directory and writes the text to the path, changing no other file |
| InterceptSpecifications.InterceptSpecification.InitName | src/Telepresence.NET/InterceptSpec/InterceptSpecification.cs:50-60 | Not blank and an identifier or placeholder; stored iff accepted |
| InterceptSpecifications.InterceptSpecification.GetName | src/Telepresence.NET/InterceptSpec/InterceptSpecification.cs:49 | Reads and memoises the name or its default |
| InterceptSpecifications.InterceptSpecification.InitConnection | src/Telepresence.NET/InterceptSpec/InterceptSpecification.cs:68-72 | Null raises argument-null |
| InterceptSpecifications.InterceptSpecification.GetConnection | src/Telepresence.NET/InterceptSpec/InterceptSpecification.cs:70 | Defaults to a new connection on the current context, memoised |
| InterceptSpecifications.InterceptSpecification.InitWorkloads | src/Telepresence.NET/InterceptSpec/InterceptSpecification.cs:84-93 | Null raises; accepted iff 1..32 workloads |
| InterceptSpecifications.InterceptSpecification.InitHandlers | src/Telepresence.NET/InterceptSpec/InterceptSpecification.cs:106-128 | Null raises; 1..64 handlers each passing the exclusivity check, which fixes each handler's strategy |
| InterceptSpecifications.InterceptSpecification.GetWorkloads | src/Telepresence.NET/InterceptSpec/InterceptSpecification.cs:80-83 | Defaults to one workload named as the specification |
| InterceptSpecifications.InterceptSpecification.GetHandlers | src/Telepresence.NET/InterceptSpec/InterceptSpecification.cs:102-105 | Defaults to one handler named as the specification |
| InterceptSpecifications.InterceptSpecification.SerializeConnection | src/Telepresence.NET/InterceptSpec/InterceptSpecification.cs:68-70 | The connection getter and the connection's getters never raise: a stored connection is kept, else a fresh one is made, and its name is memoised |
| InterceptSpecifications.InterceptSpecification.SerializeWorkloadsProperty | src/Telepresence.NET/InterceptSpec/InterceptSpecification.cs:78-83 | Succeeds iff the stored or default workloads are serializable; the default is one fresh workload; every stored intercept keeps its fields or takes its read memo; success makes the first intercept readable |
| InterceptSpecifications.InterceptSpecification.SerializeHandlersProperty | src/Telepresence.NET/InterceptSpec/InterceptSpecification.cs:100-105 | Succeeds iff the stored or default handlers are serializable; each keeps its fields or takes its read ones; success leaves every handler named with a strategy installed |
| InterceptSpecifications.InterceptSpecification.SerializeCollections | src/Telepresence.NET/InterceptSpec/InterceptSpecification.cs:78-105 | `Workloads`, then `Handlers`: succeeds iff both are serializable, leaving each entity as the reads leave it |
| InterceptSpecifications.InterceptSpecification.SerializeProperties | src/Telepresence.NET/InterceptSpec/InterceptSpecification.cs:68-105 | `Connection`, `Workloads`, then `Handlers`: succeeds iff the workloads and handlers are serializable; the connection is named; stored collections are kept and defaults are fresh; success makes the first intercept and handler locatable |
| InterceptSpecifications.InterceptSpecification.Render | src/Telepresence.NET/InterceptSpec/InterceptSpecification.cs:268-288 | Serialising succeeds iff every getter the serializer reaches reads without a throw; the text is then the YAML, else the type name; the name is memoised, and each intercept and handler keeps its fields or takes its read ones; success makes the first intercept and handler locatable |
| InterceptSpecifications.InterceptSpecification.WriteRendered | src/Telepresence.NET/InterceptSpec/InterceptSpecification.cs:295-298 | Creates the directory and writes the rendering to the path: the YAML iff the specification is serializable, else the type name |
| InterceptSpecifications.InterceptSpecification.CreateSpecificationFile | src/Telepresence.NET/InterceptSpec/InterceptSpecification.cs:290-298 | A name failure raises that error with nothing changed; otherwise both paths are stored, the directory is created, and `tmp/telepresence/name/name-intercept-specification.yaml` holds the rendering |
| InterceptSpecifications.InterceptSpecification.ReadFirstIntercept | src/Telepresence.NET/InterceptSpec/InterceptSpecification.cs:167-173 | Succeeds iff the first workload's first intercept can be read through the throwing getters, and returns it; reading does not change whether it can be read |
| InterceptSpecifications.InterceptSpecification.Locate | src/Telepresence.NET/InterceptSpec/InterceptSpecification.cs:167-177 | Succeeds iff the first intercept and the first handler can be read, and returns them; a failed getter raises its error |
| InterceptSpecifications.InterceptSpecification.Start | src/Telepresence.NET/InterceptSpec/InterceptSpecification.cs:167-185 | When a getter raises, nothing runs and no file or variable changes; otherwise the first handler's effect happens, and a completed start sets both Kestrel variables to the first intercept's local port |
| InterceptSpecifications.InterceptSpecification.Run | src/Telepresence.NET/InterceptSpec/InterceptSpecification.cs:135-194 | A name failure raises with nothing run or written; otherwise the specification file holds the rendering, and `intercept run <path>` starts as `Start` says, over the file system that includes it |
| InterceptSpecifications.InterceptSpecification.DestroyAssets | src/Telepresence.NET/InterceptSpec/InterceptSpecification.cs:304-308 | Deletes the temporary tree iff it is set and exists |
| InterceptSpecifications.InterceptSpecification.Leave | src/Telepresence.NET/InterceptSpec/InterceptSpecification.cs:199-262 | A failed name read escapes with nothing run; otherwise `leave` runs with the first intercept's name and the assets are destroyed |
| LegacyIntercept.NameCheck | src/Telepresence.NET/Intercept.cs:59-65 | Not blank and an identifier, with no placeholder escape |
| LegacyIntercept.AcceptedNameHasNoPlaceholder | src/Telepresence.NET/Intercept.cs:62 | An accepted name contains no `{{` |
| LegacyIntercept.NameExamples | src/Telepresence.NET/Intercept.cs:59-65 | `Api_1` and `api\n` pass; `1api`, blank and null are refused |
| LegacyIntercept.WorkloadsCheck | src/Telepresence.NET/Intercept.cs:89-98 | Null raises; accepted iff 1..32 workloads |
| LegacyIntercept.HandlersCheck | src/Telepresence.NET/Intercept.cs:110-132 | Null raises; 1..64 handlers each passing the XOR check |
| LegacyIntercept.ParityAdmitsAllThree | src/Telepresence.NET/Intercept.cs:119-129 | All three handler kinds pass; two or none are refused |
| LegacyIntercept.NameOf | src/Telepresence.NET/Intercept.cs:56 | A set name wins, else the default |
| LegacyIntercept.Memoised | src/Telepresence.NET/Intercept.cs:56 | The default is memoised only when it can be read |
| LegacyIntercept.NameFailsOnlyWithoutEntry | src/Telepresence.NET/Intercept.cs:56 | Reading the name fails iff nothing is set and there is no entry assembly |
| LegacyIntercept.MemoisedNameStable | src/Telepresence.NET/Intercept.cs:56 | Reading the name twice gives the same result |
| LegacyIntercept.FirstIntercept | src/Telepresence.NET/Intercept.cs:252-258 | The first workload's first intercept, when there is one |
| LegacyIntercept.LeaveTarget | src/Telepresence.NET/Intercept.cs:286-289 | Leaves the first intercept's name, else the object's name |
| LegacyIntercept.ConnectCommand | src/Telepresence.NET/Intercept.cs:172-182 | `connect`, then `--context` and `--namespace` when not blank |
| LegacyIntercept.PortUrl | src/Telepresence.NET/Intercept.cs:269-270 | The Kestrel URL of the local port, or the bare prefix without one |
| LegacyIntercept.Intercept.Named | src/Telepresence.NET/Intercept.cs:32-39 | The named constructor validates the name |
| LegacyIntercept.Intercept.InitName | src/Telepresence.NET/Intercept.cs:57-67 | Stored iff accepted |
| LegacyIntercept.Intercept.GetName | src/Telepresence.NET/Intercept.cs:56 | Reads and memoises the name or its default |
| LegacyIntercept.Intercept.InitConnection | src/Telepresence.NET/Intercept.cs:77 | Null raises argument-null |
| LegacyIntercept.Intercept.GetConnection | src/Telepresence.NET/Intercept.cs:76 | Defaults to a new connection, memoised |
| LegacyIntercept.Intercept.InitWorkloads | src/Telepresence.NET/Intercept.cs:89-98 | Stored iff accepted |
| LegacyIntercept.Intercept.GetWorkloads | src/Telepresence.NET/Intercept.cs:85-88 | Defaults to one workload named with the raw name field |
| LegacyIntercept.Intercept.InitHandlers | src/Telepresence.NET/Intercept.cs:110-132 | Stored iff accepted |
| LegacyIntercept.Intercept.GetHandlers | src/Telepresence.NET/Intercept.cs:106-109 | Defaults to one handler named with the raw name field |
| LegacyIntercept.Intercept.Connect | src/Telepresence.NET/Intercept.cs:139-214 | Once connected nothing runs; otherwise `connect` with context and namespace, connected iff it completed |
| LegacyIntercept.Intercept.Leave | src/Telepresence.NET/Intercept.cs:284-340 | A failed target read escapes with nothing run; otherwise `leave target` runs |
| LegacyIntercept.Intercept.Render | src/Telepresence.NET/Intercept.cs:365-385 | The YAML when serialising succeeds, else the type name; reading memoises the properties |
| LegacyIntercept.Intercept.CreateInterceptSpecification | src/Telepresence.NET/Intercept.cs:387-396 | Writes the rendering under the temporary directory; a name failure changes nothing |
| LegacyIntercept.Intercept.RunFirstHandler | src/Telepresence.NET/Intercept.cs:252-270 | Missing workload, intercept or handler raise their errors; a handled run points Kestrel at the local port |
| LegacyIntercept.Intercept.Prepare | src/Telepresence.NET/Intercept.cs:222-223 | Leaves the previous intercept and writes the specification file |
| LegacyIntercept.Intercept.Start | src/Telepresence.NET/Intercept.cs:219-279 | Connect once, leave, write the file, run the first handler, set the Kestrel URLs; any failure is rethrown |
| LegacyIntercept.Intercept.Quit | src/Telepresence.NET/Intercept.cs:345-350 | Raises not-implemented |
| LegacyIntercept.ConnectOnce | src/Telepresence.NET/Intercept.cs:141-142 | A second `Connect` after a completed one runs nothing |

## Left out

- YAML text: `Render` takes the text the serialiser would produce as a parameter. Which getters the serialiser reads, in which order, and which of them throw is modelled; the text itself is not, beyond the enum converter.
- `Path.GetTempPath` and `Path.GetFullPath` are parameters. The kubeconfig's current context and namespace are parameters, so reading the current context never fails in the model. In the source, the default `new Connection()` reads `KubernetesClientConfiguration.BuildConfigFromConfigFile().CurrentContext` (src/Telepresence.NET/InterceptSpec/Connection.cs:52-54), which raises when the kubeconfig is missing or unreadable. The random-port draws and the set of ports in use are parameters.
- `Environment.SetEnvironmentVariable` with an empty or null value deletes the variable; the model stores the empty string. A JSON `null` value in the intercept output (src/Telepresence.NET/InterceptSpec/OutputLoader.cs:111-114) therefore deletes a variable, which the model's string pairs cannot express.
- ProcessEnvironment.Environment.Set and SetAll: `Environment.SetEnvironmentVariable` raises `ArgumentException` for an empty name, a name containing `=`, or one starting with NUL (src/Telepresence.NET/InterceptSpec/OutputLoader.cs:114, src/Telepresence.NET/Intercept/EnvironmentLoader.cs:32). The model stores any name, so a loop never stops partway at such a name.
- EnvironmentLoader.ProcessJson: a refused variable name in the file is applied instead of raising partway through (see `ProcessEnvironment.Environment.Set`).
- OutputLoader.ApplyOutput: a refused variable name in the intercept output is applied instead of raising partway through. `LoadEnvironmentFromString` and `LoadEnvironmentFromFile` inherit this.
- OutputHandlers.HandleStandardOutput and HandleFileOutput: they load through `ApplyOutput`, so a refused name neither raises nor leaves the environment half-applied.
- CommandLineIntercept.Inject: the same. In the source, `Start` would report such a raise as caught; the specification's `Run` would let it escape.
- Host.FileSystem.WriteAllText: the write never fails. In .NET it raises `DirectoryNotFoundException` when the parent directory is missing. The only way the callers reach that is a specification name with a `/`, which the name check admits through its `{{` escape (for example `a{{/b`, see `SpecificationPathLayout`). Such a name puts a `/` inside the file name, whose parent `<dir>/a{{` the source never creates, so the source's `Run` raises before anything runs. Names with a `/` after the placeholder are not modelled in the members below.
- InterceptSpecifications.WriteSpecification: for such a name, writes where the source raises `DirectoryNotFoundException` (see `Host.FileSystem.WriteAllText`).
- InterceptSpecifications.InterceptSpecification.WriteRendered: the same.
- InterceptSpecifications.InterceptSpecification.CreateSpecificationFile: the same; its `Pass` outcome is promised for every readable name.
- InterceptSpecifications.InterceptSpecification.Run: the same; for such a name the model writes the file and starts, where the source raises before running.
- The older entity classes under `Models/Intercept/` (connection, workload, workload intercept and handler) are values holding the members the root-level `Intercept` reads. Their constructors are a fixed factory.
- LegacyIntercept: null elements in a list given to `Workloads` or `Handlers` are not modelled. A default entity whose initialiser fails is not modelled either.
- LegacyIntercept.Intercept.RunFirstHandler: the handler's `Handle` is a function parameter. Its effects on processes and files are not modelled.
- LegacyIntercept.Intercept.Render: a serialiser that throws after reading only some properties is not modelled. Either every property is read, or the name read fails first.
- The intercept `Mechanism` enumeration is recorded by its member's name, as a string.
- Case mapping (`ToLowerInvariant`, `OrdinalIgnoreCase`) covers ASCII letters only.
- A .NET `Dictionary` reuses a removed slot for the next insertion. The model keeps insertion order and appends after a removal.
- LegacyIntercept.Intercept.Connect: the `Connection == null` branch (src/Telepresence.NET/Intercept.cs:150-151) only logs, and cannot be reached because the getter never returns null. It is not modelled.
- LegacyIntercept.Intercept.Quit: the `DestroyAssets` call after the throw is unreachable.
- The private `Hostname` flag cannot be set from outside, so it is a property that is never written.
- InterceptSpecifications.InterceptSpecification.CreateSpecificationFile: the source reads `Name`, stores both paths and creates the directory before serialising. The model reads the name first and stores the paths after writing the file. The name read is memoised and the other steps touch state the serialiser does not read, so both orders end in the same state.
- InterceptSpecifications.InterceptSpecification.Render: the contract states per-workload facts (the memoised workload names, every workload fully read) only through `SerializeWorkloads`. `Render` itself promises the outcome, the text, the name, the intercepts' and handlers' memo fields, and locatability.
- InterceptSpecifications.InterceptSpecification.SerializeProperties: the same per-workload facts are stated only through `SerializeWorkloads`.
- SpecEntities.Handler.Serialize: the serialiser's reads of `Docker`'s own properties are not modelled. They have no getters that memoise or throw.
- SpecEntities.Connection.Serialize: the kubeconfig read behind the namespace default can throw in the source. Here the kubeconfig's namespace is a parameter, so the read never fails.
- InterceptSpecifications.InterceptSpecification.Render, CreateSpecificationFile and Run require a free port among the random draws. With none free, the source's port generator loops forever (src/Telepresence.NET/InterceptSpec/WorkloadIntercept.cs:251-267).
- OutputHandlers.HandleStandardOutput: the process's output events arrive on another thread. The model handles the lines in order, one at a time.
- Logging, the 30-second timeouts, cancellation tokens and standard-error output are left out. The standard-error handler is left out because it raises not-implemented. The file system does not change while a poll is waiting.
- The exact exception type `System.Uri` raises for a bad port is a single `UriFormat` fault.
- `HttpRequestHeaders.Add` can raise a `FormatException` for a malformed header value; this is not modelled.
- `OnActionExecuted` has no effect and is not modelled. Nor are the filters' `Probe` methods or the Docker handler, which has no behaviour in this code.
- The code in `ProcessDotEnv` after its unconditional throw cannot run.
- RestfulApi.AddCallerHeaders: when the context holds a `StringValues` with several values, the header value is their comma-joined text. The model keeps single values.
- HeaderPropagation.Capture and LegacyMessaging.HeaderValue: a request header with several values is a `StringValues` whose text is the comma-joined values. The model keeps one value per header entry.
- LegacyMessaging.PublishFilterSend, SendFilterSend and ConsumeFilterSend: a MassTransit header whose value is null raises a null reference in the source. Message header values here are strings.
- SpecEntities.Handler.InitEnvironment, CommandLineConnection.Connection.SetMappedNamespaces and InterceptSpecifications.InterceptSpecification.InitWorkloads: null elements in the given list are not modelled. The lists here hold values only.
- InterceptSpecifications.SerializeWorkloads: every intercept that draws a port during one serialisation takes the same first free draw (`FirstFree(draws, inUse)`). In the source each `Random.Next` call draws afresh (src/Telepresence.NET/InterceptSpec/WorkloadIntercept.cs:251-267), so two intercepts may get different ports.

## Findings

| source | as written | input that shows it | evidently intended | confidence | as-written member | corrected member |
|---|---|---|---|---|---|---|
| src/Telepresence.NET/Connection/Connection.cs:167 | A completed `Quit` sets `_connected = true` | `Connect()`, then `Quit()`, then `Connect()`: the second `Connect` returns without running `telepresence connect` | A completed quit clears the flag, so a later `Connect` connects again | medium, not executed | CommandLineConnection.QuitThenConnectAsWritten | CommandLineConnection.QuitThenConnect |
