# UnityMCP editor kernel in Dafny

UnityMCP puts an HTTP server inside the Unity editor so that an outside tool
can steer it. This project models the kernel of that server and proves
properties of the model. The kernel has six parts:

- **MiniJson and the command decoder** (`json.dfy`, `commands.dfy`). A
  hand-written reader turns the request body into a tree of values, and
  the decoder turns that tree into a command request. The reader's
  `ref int index` loops become methods. Each method is proved equal to a
  recursive specification function, and the lemmas are stated about those
  functions.
- **The command executor** (`hierarchy.dfy`, `executor.dfy`). The scene is
  abstracted as a map from handles to GameObjects. A batch runs its
  commands in order, and the first command that throws aborts the batch.
  Aliases name the objects the batch creates. The response lists the
  created objects with their paths after the last command. The `Engine`
  class holds the executor's static state and carries out the same steps
  on its fields.
- **The log buffer** (`logbuffer.dfy`). A FIFO queue bounded at 2000
  entries, as a class whose methods update its `entries` field.
- **The snapshot** (`snapshot.dfy`). A pre-order walk of the scene, root by
  root, capped at 3000 nodes, rendered as JSON.
- **The script-path guard** (`scriptwriter.dfy`). This is the validation and
  normalisation that WriteScript applies before it touches the disk.
- **The endpoints** (`endpoints.dfy`). These cover:
  - routing on the method and the normalised path;
  - the `count`, `since` and `clear` query parameters, whose names are matched without regard to ASCII case;
  - the JSON envelope and the string escaper;
  - each handler as a function of the state;
  - a `Server` class whose `ProcessRequest` is proved to answer the way
    the functional `Serve` does.

The `*_facts.dfy` files hold the lemmas about the executor, the snapshot and
the reader. `text.dfy` models the .NET string operations the code relies on
(ordinal Replace, Contains, Join, TrimStart, TrimEnd and decimal rendering).
`wrappers.dfy` holds `Option`.

Several behaviours of the code are easy to miss when reading it. Each is
stated as a lemma:

- **Trailing backslash.** A string that ends with a backslash does not
  survive being written by the executor's `Escape` and then read back by
  ParseString. The escaped `\\` makes the closing quote look escaped
  (`JsonFacts.TrailingBackslashBreaksRoundTrip`,
  `JsonFacts.ClosingQuoteFound`). Every other string round-trips
  (`JsonFacts.QuotedRoundTrip`).
- **Parse failures.** The reader does not always end with a parse error on
  malformed input:
  - reading past the end of an unterminated container throws
    IndexOutOfRange, which /command/apply reports as a 400;
  - an unsupported token in an array, as in `[x]`, is never consumed.
    ParseArray then adds a null element on every turn without moving, and
    the list grows until the runtime runs out of memory. /command/apply
    would answer that OutOfMemoryException with a 400 "Invalid JSON: …" and
    /play/run with a 500. The model stops at the first turn that makes no
    progress, marks it `Diverges`, and answers it in the same way.
- **The `truncated` flag** is set whenever 3000 nodes are collected. It is
  therefore also set when the scene has exactly 3000 nodes and none was
  dropped (`SnapshotFacts.TruncatedFlag`). The traversal is depth-first
  pre-order, not breadth-first.
- **Numbers** are not converted to floats. A number keeps its token text.
  char.IsDigit admits every Unicode decimal digit, so `[٣]` (an
  Arabic-Indic three) holds the number token `٣`
  (`JsonFacts.NonAsciiDigitIsNumber`).
- **DestroyByName with `all`** visits every object that existed when it
  started, in handle order, so each parent comes before its children. It
  reads the name of each one. Once a matching scene object has been
  destroyed together with something below it, reaching that descendant
  throws the destroyed-object exception. The command then fails, and the
  objects destroyed so far stay destroyed. The sweep completes iff no
  matching scene object has anything below it, and then exactly the
  matching scene objects go (`ExecutorFacts.DestroyAllRemovesEverySceneObjectNamed`,
  `ExecutorFacts.SweepOutcome`, `ExecutorFacts.NestedMatchThrows`).
- **Unix path check.** On Unix, Path.IsPathRooted does not treat a leading
  backslash as rooted. `\a.cs` is therefore accepted and then trimmed to
  `Assets/Generated/a.cs` (`ScriptWriter.UnixLeadingBackslashTrimmed`).
- **`since` at DateTime.MinValue.** An entry whose timestamp parses to
  DateTime.MinValue is skipped even when no `since` is given, because the
  test is `<=`.

## Model

The source paths are below `unity/UnityMCPProject/Assets/Kernel/`.

| member | source | states |
|---|---|---|
| Text.TrimEnd | unity/UnityMCPProject/Assets/Kernel/UnityMCPEndpoints.cs:22 | The result is a prefix of the input that does not end with the character, and everything cut off is that character. |
| Text.TrimStart | unity/UnityMCPProject/Assets/Kernel/UnityMCPScriptWriter.cs:24 | The result is a suffix of the input that does not start with the character, and everything cut off is that character. |
| Text.ReplaceChar | unity/UnityMCPProject/Assets/Kernel/UnityMCPScriptWriter.cs:24 | The length is kept; every other character stays in place and each old character becomes the new one, so none is left unless the two are equal, and a string without it is returned unchanged. |
| Text.ReplaceAbsent | unity/UnityMCPProject/Assets/Kernel/UnityMCPCommandModels.cs:179 | An ordinal Replace of a pattern that does not occur returns the string unchanged. |
| Text.DigitClass | unity/UnityMCPProject/Assets/Kernel/UnityMCPCommandModels.cs:119 | char.IsDigit agrees with `0`–`9` on ASCII and also admits the Arabic-Indic, Devanagari and fullwidth digits. |
| Text.NatToString | unity/UnityMCPProject/Assets/Kernel/UnityMCPCommandExecutor.cs:48 | The decimal rendering of the instance id is a non-empty run of digits. |
| MiniJson.SkipWhitespace | unity/UnityMCPProject/Assets/Kernel/UnityMCPCommandModels.cs:194-197 | Returns the first index at or after the start that is not white space; SkipWs states that it lies in bounds and is at the end or at a non-blank character. |
| MiniJson.ParseString | unity/UnityMCPProject/Assets/Kernel/UnityMCPCommandModels.cs:168-180 | The loop returns StringAt: the text up to the first `"` not preceded by a backslash, unescaped by the two Replace calls, and the index after that quote. |
| MiniJson.ParseNumber | unity/UnityMCPProject/Assets/Kernel/UnityMCPCommandModels.cs:182-192 | Returns the maximal run of number characters from the start index and the index after it. |
| MiniJson.ParseValue | unity/UnityMCPProject/Assets/Kernel/UnityMCPCommandModels.cs:110-125 | Equals ValueAt, which dispatches on the first non-blank character; a successful result never moves the index backwards or past the end. |
| MiniJson.ParseObject | unity/UnityMCPProject/Assets/Kernel/UnityMCPCommandModels.cs:127-148 | Equals ObjectAt: entries are stored as read, a separator is optional, and reading past the end is IndexOutOfRange. |
| MiniJson.ParseEntry | unity/UnityMCPProject/Assets/Kernel/UnityMCPCommandModels.cs:137-142 | Reads one key, an optional colon and a value, and stores them, with a later key overwriting an earlier one. |
| MiniJson.ParseArray | unity/UnityMCPProject/Assets/Kernel/UnityMCPCommandModels.cs:150-166 | Equals ArrayAt. Elements are appended in order; an iteration that leaves the index where it began is reported as divergence. |
| MiniJson.MiniParse | unity/UnityMCPProject/Assets/Kernel/UnityMCPCommandModels.cs:104-108 | Returns Document(json), one value read from index 0. |
| JsonFacts.UnescapeEscape | unity/UnityMCPProject/Assets/Kernel/UnityMCPCommandModels.cs:179 | ParseString's two Replace calls undo the escaper's two Replace calls, for every string. |
| JsonFacts.ClosingQuoteFound | unity/UnityMCPProject/Assets/Kernel/UnityMCPCommandModels.cs:175 | ParseString finds the closing quote of a written literal iff the text does not end with a backslash. |
| JsonFacts.QuotedRoundTrip | unity/UnityMCPProject/Assets/Kernel/UnityMCPCommandExecutor.cs:216-220 | A literal written by Escape and read by ParseString gives back the text and the index after the literal, unless the text ends with a backslash. |
| JsonFacts.QuotedInContext | unity/UnityMCPProject/Assets/Kernel/UnityMCPCommandModels.cs:168-180 | The same round trip holds for a literal anywhere inside a larger document. |
| JsonFacts.TrailingBackslashBreaksRoundTrip | unity/UnityMCPProject/Assets/Kernel/UnityMCPCommandModels.cs:175 | The text `\` is written as `"\\"` and read back as the two characters `\"`. |
| JsonFacts.StringStopsAtFirstClose | unity/UnityMCPProject/Assets/Kernel/UnityMCPCommandModels.cs:173-178 | No quote before the one found closes the string. The next index is one past the closing quote, or the end of the input when there is none. |
| JsonFacts.VerbatimString | unity/UnityMCPProject/Assets/Kernel/UnityMCPCommandModels.cs:179 | Text without backslashes is returned exactly as it stands between the quotes. |
| JsonFacts.PlainStringLiteral | unity/UnityMCPProject/Assets/Kernel/UnityMCPCommandModels.cs:168-180 | A quoted text with no quote or backslash reads back whole, and the index lands just after it. |
| JsonFacts.KindFromFirstChar | unity/UnityMCPProject/Assets/Kernel/UnityMCPCommandModels.cs:115-124 | The first character decides the kind of value, iff for each kind: object, array, string and number by that character; `true`, `false` and a null that moves by the text starting with that word. The literals are stepped over by 4, 5 and 4 characters. A null that does not move is exactly the case where no kind applies. |
| JsonFacts.NumberTokenIsMaximalRun | unity/UnityMCPProject/Assets/Kernel/UnityMCPCommandModels.cs:185-188 | Every character of a number token is a digit, `.`, `-`, `e` or `E`. |
| JsonFacts.BlankInputIsNull | unity/UnityMCPProject/Assets/Kernel/UnityMCPCommandModels.cs:112-113 | Empty or all-blank input parses to null. |
| JsonFacts.ArrayKeepsOrder | unity/UnityMCPProject/Assets/Kernel/UnityMCPCommandModels.cs:155-164 | Elements read so far stay, in order, at the front of the result. |
| JsonFacts.ObjectKeepsKeys | unity/UnityMCPProject/Assets/Kernel/UnityMCPCommandModels.cs:132-146 | Every key read so far is still a key of the result. |
| JsonFacts.ObjectLoopStores | unity/UnityMCPProject/Assets/Kernel/UnityMCPCommandModels.cs:132-146 | The object loop equals a fold of indexer stores over the entries it reads, in order, into what was stored before; the end index and the errors do not depend on what was stored. |
| JsonFacts.StoredLastWins | unity/UnityMCPProject/Assets/Kernel/UnityMCPCommandModels.cs:142 | After the stores, a key holds the value of its last entry. |
| JsonFacts.StoredUntouched | unity/UnityMCPProject/Assets/Kernel/UnityMCPCommandModels.cs:142 | A key no entry names keeps its earlier value, or stays absent. |
| JsonFacts.LastEntryWins | unity/UnityMCPProject/Assets/Kernel/UnityMCPCommandModels.cs:127-148 | A parsed object's keys are exactly the keys of the entries read, and each maps to the value of the last entry with that key. |
| JsonFacts.LastDuplicateKeyWins | unity/UnityMCPProject/Assets/Kernel/UnityMCPCommandModels.cs:142 | `{"a":1,"a":2}` parses to the object whose `a` is 2. |
| JsonFacts.NonAsciiDigitIsNumber | unity/UnityMCPProject/Assets/Kernel/UnityMCPCommandModels.cs:119 | `[٣]` is an array holding the number token `٣`, because char.IsDigit admits an Arabic-Indic digit. |
| JsonFacts.ArrayInSourceOrder | unity/UnityMCPProject/Assets/Kernel/UnityMCPCommandModels.cs:150-166 | A three-element array comes out in the order written. |
| JsonFacts.UnsupportedTokenInArrayDiverges | unity/UnityMCPProject/Assets/Kernel/UnityMCPCommandModels.cs:124 | `[x]` never consumes the `x`: the array loop's iteration ends where it began, which the source repeats, adding a null each time, until memory runs out. |
| JsonFacts.UnterminatedContainers | unity/UnityMCPProject/Assets/Kernel/UnityMCPCommandModels.cs:135 | A lone `[` or `{` is an empty container. Once anything follows the opener, running off the end is IndexOutOfRange at the input's length. |
| Commands.ToFloat | unity/UnityMCPProject/Assets/Kernel/UnityMCPCommandModels.cs:97-100 | Convert.ToSingle throws iff it is given a list or an object. |
| Commands.StringField | unity/UnityMCPProject/Assets/Kernel/UnityMCPCommandModels.cs:63-69 | A field read with `as string` is set iff the key is present and holds a string, and then it is that string. |
| Commands.Parse | unity/UnityMCPProject/Assets/Kernel/UnityMCPCommandModels.cs:46-81 | The foreach loop returns Decode(json): a parse failure rejects the whole request, and otherwise the request is built from the document. |
| Commands.RejectionPersists | unity/UnityMCPProject/Assets/Kernel/UnityMCPCommandModels.cs:58-78 | Once one command object fails to decode, the rest of the list does not change the outcome. |
| Commands.NonObjectDocumentIsEmptyRequest | unity/UnityMCPProject/Assets/Kernel/UnityMCPCommandModels.cs:49-51 | A top level that is not an object gives an empty request with no id. |
| Commands.CommandsNotAListIgnored | unity/UnityMCPProject/Assets/Kernel/UnityMCPCommandModels.cs:53-56 | A `commands` value that is not a list is ignored, and `requestId` is still read. |
| Commands.CommandsFollowObjects | unity/UnityMCPProject/Assets/Kernel/UnityMCPCommandModels.cs:58-78 | The commands are exactly the list's objects, decoded in order. The list decodes iff each of its objects does. |
| Commands.NoObjectsNoCommands | unity/UnityMCPProject/Assets/Kernel/UnityMCPCommandModels.cs:60 | A list with no objects gives no commands. |
| Commands.Vec3NeedsThreeScalars | unity/UnityMCPProject/Assets/Kernel/UnityMCPCommandModels.cs:83-88 | ParseVec3 is null unless given a list of three or more items. It throws iff one of the first three is a list or an object; otherwise it is the vector of the first three. |
| Commands.QuatNeedsFourScalars | unity/UnityMCPProject/Assets/Kernel/UnityMCPCommandModels.cs:90-95 | The same for ParseQuat, with four items. |
| Commands.CommandFields | unity/UnityMCPProject/Assets/Kernel/UnityMCPCommandModels.cs:62-74 | A command decodes iff its four casts succeed. `type` and `target` are set iff they are string entries, and `all` is true iff the entry is boolean true. |
| Hierarchy.Ancestry | unity/UnityMCPProject/Assets/Kernel/UnityMCPSnapshotBuilder.cs:84-90 | The parent walk starts with the object's own name. |
| Hierarchy.AncestorTransitive | unity/UnityMCPProject/Assets/Kernel/UnityMCPCommandExecutor.cs:210-214 | The ancestor relation that GetPath walks is transitive. |
| Hierarchy.AncestorIsOlder | unity/UnityMCPProject/Assets/Kernel/UnityMCPCommandExecutor.cs:210-214 | An ancestor is alive and never younger than its descendant, so the walk up terminates. |
| Hierarchy.AncestorsOnOneChain | unity/UnityMCPProject/Assets/Kernel/UnityMCPCommandExecutor.cs:210-214 | Two ancestors of one object lie on one chain. |
| Hierarchy.FindFrom | unity/UnityMCPProject/Assets/Kernel/UnityMCPCommandExecutor.cs:204 | GameObject.Find returns the first findable object (alive, a scene object, active in the hierarchy, matching), or null when there is none. |
| Hierarchy.Destroy | unity/UnityMCPProject/Assets/Kernel/UnityMCPCommandExecutor.cs:161 | DestroyImmediate removes exactly the object and everything below it. The other objects keep their records. |
| Hierarchy.Create | unity/UnityMCPProject/Assets/Kernel/UnityMCPCommandExecutor.cs:67 | A new object is added as a root under the next handle; nothing else changes. |
| Executor.FirstAssembly | unity/UnityMCPProject/Assets/Kernel/UnityMCPCommandExecutor.cs:109-113 | The assembly scan finds nothing iff no assembly defines the name. Otherwise it returns the answer of the first one that does. |
| Executor.Register | unity/UnityMCPProject/Assets/Kernel/UnityMCPCommandExecutor.cs:187-194 | An empty id records nothing. A non-empty id maps to the object and is appended to the created ids, even when it was already there. |
| Executor.Resolve | unity/UnityMCPProject/Assets/Kernel/UnityMCPCommandExecutor.cs:196-208 | An empty target throws. An alias wins over the scene, and a target found in neither throws "Target not found". |
| Executor.ApplyTransform | unity/UnityMCPProject/Assets/Kernel/UnityMCPCommandExecutor.cs:94-96 | Exactly the fields the command carries are written; every other field is kept. |
| Executor.Exec | unity/UnityMCPProject/Assets/Kernel/UnityMCPCommandExecutor.cs:58-185 | ProcessCommand keeps the scene invariant on every command that completes. Only DestroyByName can throw after changing the scene; it then throws the destroyed-object exception, and the scene is still valid. |
| Executor.RunFrom | unity/UnityMCPProject/Assets/Kernel/UnityMCPCommandExecutor.cs:21-32 | The command loop keeps the scene invariant. An abort names a command of the batch. |
| Executor.Live | unity/UnityMCPProject/Assets/Kernel/UnityMCPCommandExecutor.cs:39-41 | Every listed entry is a created id whose alias names a live object. |
| Executor.Engine.RegisterAlias | unity/UnityMCPProject/Assets/Kernel/UnityMCPCommandExecutor.cs:187-194 | The new state is Register of the old one. |
| Executor.Engine.ResolveTarget | unity/UnityMCPProject/Assets/Kernel/UnityMCPCommandExecutor.cs:196-208 | Returns Resolve of the current state. |
| Executor.SweepStep | unity/UnityMCPProject/Assets/Kernel/UnityMCPCommandExecutor.cs:157-163 | One pass of the loop body at a handle gives the sweep one handle further. A pass that throws on an object already gone gives the outcome of the whole sweep. |
| Executor.SweepObjects | unity/UnityMCPProject/Assets/Kernel/UnityMCPCommandExecutor.cs:155-164 | The loop over the objects found at the start, in handle order, returns exactly the Sweep outcome: the scene it leaves and the handle it threw on, if any. |
| Executor.Engine.DestroyAll | unity/UnityMCPProject/Assets/Kernel/UnityMCPCommandExecutor.cs:152-165 | The loop over the objects found at the start leaves the scene as Sweep describes. It reports the destroyed-object exception exactly when Sweep stops on a destroyed object. The aliases and created ids are untouched. |
| Executor.Engine.ProcessCommand | unity/UnityMCPProject/Assets/Kernel/UnityMCPCommandExecutor.cs:58-185 | A command that runs leaves the state Exec gives. A command that throws reports Exec's message. It changes nothing, except that DestroyByName with `all` keeps what its partial sweep destroyed. |
| Executor.WriteCreated | unity/UnityMCPProject/Assets/Kernel/UnityMCPCommandExecutor.cs:35-55 | The response loop writes CreatedText of the final state: live ids only, comma-separated. Engine.CreatedJson runs it on the engine's current state. |
| Executor.Engine.Execute | unity/UnityMCPProject/Assets/Kernel/UnityMCPCommandExecutor.cs:13-56 | The outcome and the new state are Batch of the old scene: the aliases start empty and the command loop stops at the first throw. |
| Executor.AbortIsFinal | unity/UnityMCPProject/Assets/Kernel/UnityMCPCommandExecutor.cs:28-31 | After a command throws, no later command changes the outcome. |
| ExecutorFacts.FailingCommandAbortsBatch | unity/UnityMCPProject/Assets/Kernel/UnityMCPCommandExecutor.cs:24-31 | A throwing command fails the batch with "Command '<type>' failed: <message>". The state is what the earlier commands left. |
| ExecutorFacts.CompletedBatchReportsFinalState | unity/UnityMCPProject/Assets/Kernel/UnityMCPCommandExecutor.cs:34-55 | A batch that completes is reported from the state its last command left. |
| ExecutorFacts.FirstCommandSeesNoAlias | unity/UnityMCPProject/Assets/Kernel/UnityMCPCommandExecutor.cs:15 | Aliases of earlier batches are gone. The first command looks its target up in the scene only. |
| ExecutorFacts.UnknownCommandType | unity/UnityMCPProject/Assets/Kernel/UnityMCPCommandExecutor.cs:182-183 | Any other type throws "Unknown command type: <type>". |
| ExecutorFacts.CreatePrimitiveResult | unity/UnityMCPProject/Assets/Kernel/UnityMCPCommandExecutor.cs:64-76 | CreatePrimitive adds exactly one new root, named by the command or otherwise by the kind, with the given transform fields. The alias is registered iff the id is non-empty. |
| ExecutorFacts.CreateEmptyResult | unity/UnityMCPProject/Assets/Kernel/UnityMCPCommandExecutor.cs:77-84 | CreateEmpty adds one root named "Empty" unless the command names it. Only its position is set. |
| ExecutorFacts.PrimitiveNamesParse | unity/UnityMCPProject/Assets/Kernel/UnityMCPCommandExecutor.cs:66 | Each primitive kind parses back from its name, in upper or lower case. |
| ExecutorFacts.SetTransformWritesPresentFields | unity/UnityMCPProject/Assets/Kernel/UnityMCPCommandExecutor.cs:91-98 | Only the target's carried transform fields change. Everything else is kept: the target's other fields, the other objects, the aliases and the created ids. |
| ExecutorFacts.DestroyedAliasThrows | unity/UnityMCPProject/Assets/Kernel/UnityMCPCommandExecutor.cs:85-141 | Through the alias of an object destroyed earlier, Rename, SetTransform with a field, and AddComponent and AttachScript with a type found, all throw the host's destroyed-object exception. SetTransform with no field changes nothing. |
| ExecutorFacts.CreatePrimitiveFailures | unity/UnityMCPProject/Assets/Kernel/UnityMCPCommandExecutor.cs:64-66 | A missing primitive throws the ArgumentNullException for `value`, a blank one the blank-value exception, and an unknown one the unknown-name exception for that value. The command succeeds iff the name parses. |
| ExecutorFacts.BlankPrimitiveThrows | unity/UnityMCPProject/Assets/Kernel/UnityMCPCommandExecutor.cs:66 | `""` and a white-space-only primitive take the blank-value path. |
| ExecutorFacts.AddComponentAppends | unity/UnityMCPProject/Assets/Kernel/UnityMCPCommandExecutor.cs:99-119 | On a live target with a type the lookup finds, the type is appended to the target's components. Everything else is kept: the target's other fields, the other objects, the aliases and the created ids. |
| ExecutorFacts.AddComponentFailures | unity/UnityMCPProject/Assets/Kernel/UnityMCPCommandExecutor.cs:99-119 | AddComponent throws, changing nothing, in this order: the target does not resolve; the type is unknown ("Unknown component: <type>"); the lookup throws; the target was destroyed. |
| ExecutorFacts.AttachScriptAppends | unity/UnityMCPProject/Assets/Kernel/UnityMCPCommandExecutor.cs:120-141 | On a live target, a class the lookup finds is appended to the components and nothing else changes. A class it does not find throws "Script class not found: <class>". |
| ExecutorFacts.ScriptLookupOrder | unity/UnityMCPProject/Assets/Kernel/UnityMCPCommandExecutor.cs:124-136 | A null or empty class finds nothing. Otherwise the lookup tries the name, then `UnityMCP.Generated.<name>`, then the assemblies in order. It misses iff all of them miss. |
| ExecutorFacts.ComponentLookupOrder | unity/UnityMCPProject/Assets/Kernel/UnityMCPCommandExecutor.cs:103-116 | The lookup tries the UnityEngine name first, then the bare name, then the assemblies. It misses iff all three miss. |
| ExecutorFacts.DestroyByNameNeedsName | unity/UnityMCPProject/Assets/Kernel/UnityMCPCommandExecutor.cs:145 | An empty name throws "DestroyByName requires 'name'". |
| ExecutorFacts.SweepRemovesExactly | unity/UnityMCPProject/Assets/Kernel/UnityMCPCommandExecutor.cs:155-164 | After k visits without a throw, exactly the objects with a hit at or above them among the first k handles are gone. |
| ExecutorFacts.SweepKeepsRecords | unity/UnityMCPProject/Assets/Kernel/UnityMCPCommandExecutor.cs:155-164 | Objects the sweep leaves keep their records. |
| ExecutorFacts.SweepThrowsIffNested | unity/UnityMCPProject/Assets/Kernel/UnityMCPCommandExecutor.cs:155-164 | The first k visits throw iff, among the first k handles, some object lies below a hit. |
| ExecutorFacts.SweepOutcome | unity/UnityMCPProject/Assets/Kernel/UnityMCPCommandExecutor.cs:152-165 | The whole sweep completes iff no hit has anything below it, and it then removes exactly the hits. Otherwise it stops on the first object with a hit above it, which is already gone. Exactly the objects with a hit at or above them among the earlier handles are then gone. |
| ExecutorFacts.DestroyAllRemovesEverySceneObjectNamed | unity/UnityMCPProject/Assets/Kernel/UnityMCPCommandExecutor.cs:152-165 | DestroyByName with `all` completes iff no scene object of that name has anything below it, inactive objects included, and then exactly those objects are removed. Otherwise it throws the destroyed-object exception with the partly swept scene. |
| ExecutorFacts.NestedMatchThrows | unity/UnityMCPProject/Assets/Kernel/UnityMCPCommandExecutor.cs:155-164 | A match with a child: the parent's destruction takes the child, the sweep then reaches the child and throws, and the emptied scene is kept. |
| ExecutorFacts.DestroyOneRemovesFirstActiveMatch | unity/UnityMCPProject/Assets/Kernel/UnityMCPCommandExecutor.cs:166-179 | Without `all`, only what GameObject.Find returns is destroyed, with its subtree. No match is a no-op. |
| ExecutorFacts.CreateThenRename | unity/UnityMCPProject/Assets/Kernel/UnityMCPCommandExecutor.cs:77-90 | CreateEmpty under an alias, then Rename through it, renames the new object. |
| ExecutorFacts.RenameShowsInResponse | unity/UnityMCPProject/Assets/Kernel/UnityMCPCommandExecutor.cs:34-55 | The response shows the path with the new name, because paths are read after the last command. |
| ExecutorFacts.DuplicateAliasListedTwice | unity/UnityMCPProject/Assets/Kernel/UnityMCPCommandExecutor.cs:189-193 | An id registered twice adds two entries to the response, after what was already created, both for the object registered last. |
| ExecutorFacts.DestroyedObjectsLeftOut | unity/UnityMCPProject/Assets/Kernel/UnityMCPCommandExecutor.cs:41 | Ids whose objects are gone are left out of the response. |
| Logs.Appended | unity/UnityMCPProject/Assets/Kernel/UnityMCPLogBuffer.cs:44-50 | The new entry is last, and the result is a suffix of the old queue plus that entry. No entry is dropped below the bound, and the bound is kept. |
| Logs.WindowAfterAppend | unity/UnityMCPProject/Assets/Kernel/UnityMCPLogBuffer.cs:44-50 | The queue always holds the newest 2000 of all entries logged, in FIFO order. |
| Logs.Recent | unity/UnityMCPProject/Assets/Kernel/UnityMCPLogBuffer.cs:53-71 | GetRecent returns min(count, total) of the newest entries, oldest first, with a count below 1 read as 1. |
| Logs.RecentClampsCount | unity/UnityMCPProject/Assets/Kernel/UnityMCPLogBuffer.cs:55 | A count below 1 returns only the newest entry. |
| Logs.RecentAll | unity/UnityMCPProject/Assets/Kernel/UnityMCPLogBuffer.cs:60-63 | A count at least the total returns the whole queue. |
| Logs.LogBuffer.Enqueue | unity/UnityMCPProject/Assets/Kernel/UnityMCPLogBuffer.cs:44 | The entry is added at the tail. |
| Logs.LogBuffer.TryDequeue | unity/UnityMCPProject/Assets/Kernel/UnityMCPLogBuffer.cs:49 | Succeeds iff the queue was non-empty, and then removes its head. |
| Logs.LogBuffer.HandleLog | unity/UnityMCPProject/Assets/Kernel/UnityMCPLogBuffer.cs:34-51 | The entry is recorded and appended, the oldest is dropped past 2000, and the bound holds. |
| Logs.LogBuffer.GetRecent | unity/UnityMCPProject/Assets/Kernel/UnityMCPLogBuffer.cs:53-71 | The index loop returns Recent of the queue. |
| Logs.LogBuffer.Clear | unity/UnityMCPProject/Assets/Kernel/UnityMCPLogBuffer.cs:72-76 | The drain loop empties the queue. |
| ScriptWriter.AssetPath | unity/UnityMCPProject/Assets/Kernel/UnityMCPScriptWriter.cs:16-25 | Accepted iff the path is not blank, contains neither `..` nor `:`, and is not rooted. A blank path gives "Path cannot be empty". |
| ScriptWriter.Normalize | unity/UnityMCPProject/Assets/Kernel/UnityMCPScriptWriter.cs:24 | The result holds no backslash and does not start with `/`. |
| ScriptWriter.NormalizeMapsInput | unity/UnityMCPProject/Assets/Kernel/UnityMCPScriptWriter.cs:24 | The result is a suffix of the input, with backslashes turned into slashes character for character. |
| ScriptWriter.NormalizeIdempotent | unity/UnityMCPProject/Assets/Kernel/UnityMCPScriptWriter.cs:24 | Normalising twice is normalising once. |
| ScriptWriter.AcceptedPathIsSafe | unity/UnityMCPProject/Assets/Kernel/UnityMCPScriptWriter.cs:19-25 | An accepted asset path is `Assets/Generated/` followed by the normalised input, with no `..`, no `:` and no backslash. |
| ScriptWriter.AcceptedPathIsStable | unity/UnityMCPProject/Assets/Kernel/UnityMCPScriptWriter.cs:16-25 | The normal form of an accepted path is accepted again, with the same asset path. |
| ScriptWriter.WindowsTrimsNothing | unity/UnityMCPProject/Assets/Kernel/UnityMCPScriptWriter.cs:19-24 | On Windows the TrimStart of an accepted path removes nothing. |
| ScriptWriter.UnixLoneBackslashNamesFolder | unity/UnityMCPProject/Assets/Kernel/UnityMCPScriptWriter.cs:16-25 | A lone `\` is accepted on Unix with the bare folder `Assets/Generated/` as asset path, and refused on Windows. |
| ScriptWriter.UnixLeadingBackslashTrimmed | unity/UnityMCPProject/Assets/Kernel/UnityMCPScriptWriter.cs:19-25 | `\a.cs` is accepted on Unix as `Assets/Generated/a.cs` and refused on Windows. |
| Snapshot.LevelBelow | unity/UnityMCPProject/Assets/Kernel/UnityMCPSnapshotBuilder.cs:75-77 | The children (or roots) are in increasing handle order, and all of them are listed. |
| Snapshot.Capped | unity/UnityMCPProject/Assets/Kernel/UnityMCPSnapshotBuilder.cs:51 | A full list is left alone; otherwise elements are appended up to the cap, and what was there stays. |
| Snapshot.CappedTwice | unity/UnityMCPProject/Assets/Kernel/UnityMCPSnapshotBuilder.cs:20-24 | Capping two listings in turn is capping their concatenation. |
| Snapshot.StackPath | unity/UnityMCPProject/Assets/Kernel/UnityMCPSnapshotBuilder.cs:82-92 | The stack walk returns the same path as the executor's recursive GetPath. |
| Snapshot.JoinedAncestryIsPath | unity/UnityMCPProject/Assets/Kernel/UnityMCPSnapshotBuilder.cs:91 | The names up the chain, joined in pop order, form the slash-separated path. |
| Snapshot.ComponentNames | unity/UnityMCPProject/Assets/Kernel/UnityMCPSnapshotBuilder.cs:56-61 | The loop returns Present: the names of the non-null components, in order. |
| Snapshot.Traverse | unity/UnityMCPProject/Assets/Kernel/UnityMCPSnapshotBuilder.cs:49-80 | Appends the subtree in pre-order, capped at maxObjects. |
| Snapshot.TraverseChildren | unity/UnityMCPProject/Assets/Kernel/UnityMCPSnapshotBuilder.cs:75-79 | The children loop appends the children's subtrees in turn, capped at maxObjects, and leaves once the list is full. |
| Snapshot.CollectObjects | unity/UnityMCPProject/Assets/Kernel/UnityMCPSnapshotBuilder.cs:18-24 | The root loop returns the capped listing of all roots' subtrees. |
| Snapshot.StrArray | unity/UnityMCPProject/Assets/Kernel/UnityMCPSnapshotBuilder.cs:130-142 | Returns the comma-separated quoted names in brackets. |
| Snapshot.ToJson | unity/UnityMCPProject/Assets/Kernel/UnityMCPSnapshotBuilder.cs:111-125 | The eleven appends give `NodeText`: the brace, the seven `key:value,` lines, the components key and array, and the closing brace. |
| SnapshotFacts.NodeTextReadsBack | unity/UnityMCPProject/Assets/Kernel/UnityMCPSnapshotBuilder.cs:111-125 | The node text opens with `{"path":`. MiniJson reads the path back, the `active` flag as its Bool, the tag back, and the components as the array of their names. Each key sits after the comma that ends the previous field, and the text ends with `}`. |
| SnapshotFacts.StrArrayReadsBack | unity/UnityMCPProject/Assets/Kernel/UnityMCPSnapshotBuilder.cs:130-142 | MiniJson reads StrArray's text back as the array of the names, wherever it stands. |
| Snapshot.BuildSnapshotJson | unity/UnityMCPProject/Assets/Kernel/UnityMCPSnapshotBuilder.cs:12-47 | The scene name, the truncated flag and the collected nodes, in the envelope. |
| Snapshot.JsonStr | unity/UnityMCPProject/Assets/Kernel/UnityMCPSnapshotBuilder.cs:94-98 | Null is `""`; any other string is escaped and quoted. |
| Snapshot.NotBlank | unity/UnityMCPProject/Assets/Kernel/UnityMCPSnapshotBuilder.cs:41-45 | Output that opens with `{` is never blank, so the `{}` fallback never applies. |
| SnapshotFacts.PreOrderMembers | unity/UnityMCPProject/Assets/Kernel/UnityMCPSnapshotBuilder.cs:49-80 | A subtree listing holds exactly the object and its descendants. |
| SnapshotFacts.NodeBeforeDescendants | unity/UnityMCPProject/Assets/Kernel/UnityMCPSnapshotBuilder.cs:63-79 | The node comes first, and only proper descendants follow it. |
| SnapshotFacts.PreOrderDistinct | unity/UnityMCPProject/Assets/Kernel/UnityMCPSnapshotBuilder.cs:75-79 | No object is listed twice in a subtree. |
| SnapshotFacts.EveryObjectExactlyOnce | unity/UnityMCPProject/Assets/Kernel/UnityMCPSnapshotBuilder.cs:15-24 | Without the cap, every object below a scene root is listed exactly once, and nothing else is. |
| SnapshotFacts.SnapshotIsCappedPrefix | unity/UnityMCPProject/Assets/Kernel/UnityMCPSnapshotBuilder.cs:18-24 | The snapshot holds at most 3000 nodes. They are the first nodes of the full listing, and all of it when it fits. |
| SnapshotFacts.TruncatedFlag | unity/UnityMCPProject/Assets/Kernel/UnityMCPSnapshotBuilder.cs:30 | `truncated` is true iff at least 3000 nodes exist. At exactly 3000 it is true with nothing dropped. |
| SnapshotFacts.PresentAppend | unity/UnityMCPProject/Assets/Kernel/UnityMCPSnapshotBuilder.cs:57-61 | Skipping nulls keeps the order of the names. |
| SnapshotFacts.PresentAllNames | unity/UnityMCPProject/Assets/Kernel/UnityMCPSnapshotBuilder.cs:57-61 | With no null component, every name is listed in position. |
| SnapshotFacts.JsonStrReadsBack | unity/UnityMCPProject/Assets/Kernel/UnityMCPSnapshotBuilder.cs:94-98 | A snapshot string literal reads back through ParseString unless it ends with a backslash. |
| Endpoints.UpperAscii | unity/UnityMCPProject/Assets/Kernel/UnityMCPEndpoints.cs:20 | The length is kept, and no lowercase ASCII letter is left. |
| Endpoints.UpperAsciiLetters | unity/UnityMCPProject/Assets/Kernel/UnityMCPEndpoints.cs:20 | Each of `a`–`z` becomes the letter at the same place of `A`–`Z`, and every other character is kept. |
| Endpoints.LowerCaseVerbRoutes | unity/UnityMCPProject/Assets/Kernel/UnityMCPEndpoints.cs:20-30 | `post` is read as POST and routes to /command/apply; no verb is GET; `Get` on `/logs/recent/` routes to /logs/recent. |
| Endpoints.NormalizePath | unity/UnityMCPProject/Assets/Kernel/UnityMCPEndpoints.cs:21-23 | Never empty, and no trailing `/` unless it is "/". Otherwise it is the URL path minus trailing slashes only. |
| Endpoints.NormalizeIdempotent | unity/UnityMCPProject/Assets/Kernel/UnityMCPEndpoints.cs:21-23 | A normalised path normalises to itself. |
| Endpoints.RouteOf | unity/UnityMCPProject/Assets/Kernel/UnityMCPEndpoints.cs:30-354 | A handler is chosen only for its own method and path. |
| Endpoints.RouteKeyRoutes | unity/UnityMCPProject/Assets/Kernel/UnityMCPEndpoints.cs:30-300 | Each handler is reached by its own method and path. |
| Endpoints.NotFoundIffNoKey | unity/UnityMCPProject/Assets/Kernel/UnityMCPEndpoints.cs:350-354 | A request is unrouted iff its pair is no handler's key. |
| Endpoints.ParseInt32 | unity/UnityMCPProject/Assets/Kernel/UnityMCPEndpoints.cs:36 | int.TryParse succeeds only with an Int32 value. |
| Endpoints.ParseInt32RoundTrip | unity/UnityMCPProject/Assets/Kernel/UnityMCPEndpoints.cs:36 | Every Int32 parses back from its decimal form. |
| Endpoints.QueryValues | unity/UnityMCPProject/Assets/Kernel/UnityMCPEndpoints.cs:33 | A value is among the results iff some pair carries it under the name, up to ASCII case. |
| Endpoints.QueryIgnoresCase | unity/UnityMCPProject/Assets/Kernel/UnityMCPEndpoints.cs:33 | A lookup finds a value iff some pair has the name up to case. Names that differ only in case look up the same value. A name present once gives its own value. |
| Text.LowerAscii | unity/UnityMCPProject/Assets/Kernel/UnityMCPEndpoints.cs:33 | The length is kept, and no uppercase ASCII letter is left. |
| Text.LowerAsciiLetters | unity/UnityMCPProject/Assets/Kernel/UnityMCPEndpoints.cs:33 | Each of `A`–`Z` becomes the letter at the same place of `a`–`z`, and every other character is kept. |
| Endpoints.QueryExamples | unity/UnityMCPProject/Assets/Kernel/UnityMCPEndpoints.cs:33 | `?COUNT=5` is read as count 5 and `?Clear=true` as clear; `?count=5&Count=7` reads as `5,7`. |
| Endpoints.ParameterNamesIgnoreCase | unity/UnityMCPProject/Assets/Kernel/UnityMCPEndpoints.cs:30-40 | `?COUNT=5` lists the five newest entries, and `?Clear=true` empties the buffer. |
| Endpoints.CountParam | unity/UnityMCPProject/Assets/Kernel/UnityMCPEndpoints.cs:32-40 | Always within [1, 2000], and 200 when the parameter is absent, empty or not a number. |
| Endpoints.CountParamNumber | unity/UnityMCPProject/Assets/Kernel/UnityMCPEndpoints.cs:64-69 | A written Int32 is clamped to [1, 2000] and is used as it is when in range. |
| Endpoints.EscapeJsonString | unity/UnityMCPProject/Assets/Kernel/UnityMCPEndpoints.cs:412-414 | Null escapes to the empty text. |
| Endpoints.EscapeJsonStringPerChar | unity/UnityMCPProject/Assets/Kernel/UnityMCPEndpoints.cs:415-419 | The five chained Replace calls escape each character on its own. |
| Endpoints.EscapeJsonStringHasNoControl | unity/UnityMCPProject/Assets/Kernel/UnityMCPEndpoints.cs:417-419 | The output holds no raw line feed, carriage return or tab. |
| Endpoints.EscapeJsonStringRoundTrip | unity/UnityMCPProject/Assets/Kernel/UnityMCPEndpoints.cs:412-420 | A JSON reader gets every string back. |
| Endpoints.EscapeJsonStringAgreesWithEscape | unity/UnityMCPProject/Assets/Kernel/UnityMCPEndpoints.cs:412-420 | Without control characters the output equals the executor's Escape. |
| Endpoints.EscapedLiteralReadsBack | unity/UnityMCPProject/Assets/Kernel/UnityMCPEndpoints.cs:412-420 | MiniJson reads the literal back anywhere in a response (no control character, no trailing backslash). |
| Endpoints.CreateResponse | unity/UnityMCPProject/Assets/Kernel/UnityMCPEndpoints.cs:389-409 | Returns the envelope: empty data becomes `{}`; null or no errors gives `[]`; otherwise the errors are escaped, quoted and comma-separated. |
| Endpoints.ErrorsJson | unity/UnityMCPProject/Assets/Kernel/UnityMCPEndpoints.cs:397-405 | The loop writes the errors array. |
| Endpoints.SingleErrorReadsBack | unity/UnityMCPProject/Assets/Kernel/UnityMCPEndpoints.cs:389-409 | A one-error envelope has the message as its first array element, and MiniJson reads it back. |
| Endpoints.CompilerErrorByLocation | unity/UnityMCPProject/Assets/Kernel/UnityMCPEndpoints.cs:79-84 | An Error whose message names `Assets/….cs(` is a compiler error; the same text as a Warning is not. |
| Endpoints.CompilerErrorsMembers | unity/UnityMCPProject/Assets/Kernel/UnityMCPEndpoints.cs:76-97 | An entry is listed iff it is logged and is a compiler error. |
| Endpoints.CompilerErrorsAppend | unity/UnityMCPProject/Assets/Kernel/UnityMCPEndpoints.cs:76-97 | The listing keeps the log's order. |
| Endpoints.RecentLogsJson | unity/UnityMCPProject/Assets/Kernel/UnityMCPEndpoints.cs:45-58 | The loop writes every entry in order, with a comma after all but the last. |
| Endpoints.CompilerLogsJson | unity/UnityMCPProject/Assets/Kernel/UnityMCPEndpoints.cs:72-98 | The loop writes the compiler errors in order. |
| Endpoints.ErrorsSinceMembers | unity/UnityMCPProject/Assets/Kernel/UnityMCPEndpoints.cs:316-340 | An entry is reported iff it is a compiler error that is not skipped. An unparseable timestamp is never skipped. |
| Endpoints.ErrorsSinceJson | unity/UnityMCPProject/Assets/Kernel/UnityMCPEndpoints.cs:312-341 | The loop with its `continue` writes ErrorsSinceText. |
| Endpoints.RequestIdEcho | unity/UnityMCPProject/Assets/Kernel/UnityMCPEndpoints.cs:164-169 | Without an id the data is `{"created":…}`. With one, the id comes first and reads back. |
| Endpoints.RunawayArrayAnswered | unity/UnityMCPProject/Assets/Kernel/UnityMCPEndpoints.cs:141-151 | The body `[x]` gets a 400 "Invalid JSON: …" on /command/apply, which runs nothing, and a 500 on /play/run, which keeps the play result. |
| Endpoints.PlaySeconds | unity/UnityMCPProject/Assets/Kernel/UnityMCPEndpoints.cs:188-194 | At least 1, 2 without a `seconds` field, and otherwise the converted value raised to 1. |
| Endpoints.ServeChangesOnlyItsOwnPart | unity/UnityMCPProject/Assets/Kernel/UnityMCPEndpoints.cs:28-354 | State changes stay on their own routes: only /compiler/errors with clear=true empties the buffer, only /command/apply changes the executor, only /play/run changes the play result. |
| Endpoints.UnknownEndpoint | unity/UnityMCPProject/Assets/Kernel/UnityMCPEndpoints.cs:350-354 | An unrouted request changes nothing and gets a 404 with the error "Endpoint not found". |
| Endpoints.NotFoundReadsBack | unity/UnityMCPProject/Assets/Kernel/UnityMCPEndpoints.cs:350-354 | The error of that 404 reads back as "Endpoint not found". |
| Endpoints.Server.LogsRecentHandler | unity/UnityMCPProject/Assets/Kernel/UnityMCPEndpoints.cs:30-61 | Replies with the listing of the newest entries for the count parameter. |
| Endpoints.Server.LogsCompilerHandler | unity/UnityMCPProject/Assets/Kernel/UnityMCPEndpoints.cs:62-101 | Replies with the compiler errors among the newest entries. |
| Endpoints.Server.CompilerErrorsHandler | unity/UnityMCPProject/Assets/Kernel/UnityMCPEndpoints.cs:300-349 | Lists the errors after `since`, then clears the buffer iff clear=true. |
| Endpoints.Server.SnapshotHandler | unity/UnityMCPProject/Assets/Kernel/UnityMCPEndpoints.cs:102-127 | Replies with the snapshot wrapped in `{"snapshot":…}`. |
| Endpoints.Server.CommandApplyHandler | unity/UnityMCPProject/Assets/Kernel/UnityMCPEndpoints.cs:128-179 | A rejected body, a runaway array included, is a 400 that runs nothing. A body that parses runs the batch: 200 with ApplyData, or 500 with the failure. |
| Endpoints.Server.PlayRunHandler | unity/UnityMCPProject/Assets/Kernel/UnityMCPEndpoints.cs:180-266 | A parse or conversion failure is a 500. Otherwise the play result is cleared and `{"started":true}` is returned. |
| Endpoints.Server.PlayLastHandler | unity/UnityMCPProject/Assets/Kernel/UnityMCPEndpoints.cs:267-272 | Replies `{"exceptions":…}`, with `[]` when nothing is stored. |
| Endpoints.Server.ScriptsWriteHandler | unity/UnityMCPProject/Assets/Kernel/UnityMCPEndpoints.cs:273-299 | A missing path or content is a 500 "Invalid request…", a refused path a 500 with its message, and an accepted one the escaped asset path. |
| Endpoints.Server.ProcessRequest | unity/UnityMCPProject/Assets/Kernel/UnityMCPEndpoints.cs:15-380 | The reply and the new state are what Serve gives for the old state, and the invariants are kept. |

## Left out

- Threads and time-outs are not modelled:
  - the ConcurrentQueue's thread safety;
  - the main-thread dispatcher;
  - its 3000 ms and 5000 ms time-outs, on which the source answers 500.

  Every call runs to completion in one thread.
- The play-mode background task of /play/run (UnityMCPEndpoints.cs:200-262) is not modelled. It starts play mode, sleeps, stops it and stores the Exception and Error logs as the play result. The model clears the result and replies; nothing else writes it.
- The kernel's own Debug.Log, LogWarning and LogError lines (in Execute and in the handlers) are not added to the log buffer. The host would add them.
- The HTTP listener, body reading, content encoding, UTF-8 output and failed response writes are left out. A reply is a status and a body string.
- `Request.path` is the URL's AbsolutePath as given: percent-decoding is left out. The query string arrives as its name/value pairs in order. Splitting the URL into pairs and decoding them is left out.
- Text.LowerAscii: the query collection ignores case with the invariant culture, which also folds non-ASCII letters. The model folds only `A`–`Z`.
- Floats are not modelled:
  - ParseNumber keeps the token instead of the float;
  - coordinates stay JSON scalars;
  - the snapshot's Vec3 and Quat text is the `transforms` parameter.
- Commands.ToFloat: does not model the FormatException or OverflowException that Convert.ToSingle throws on a string that is not a number. A string coordinate is kept as text.
- Commands.AllField: the source's `(bool)` cast on a null value throws a NullReferenceException. The model calls every failed cast InvalidCast. The message comes from the `exceptionMessage` parameter either way.
- The runtime's own exception texts are parameters, not fixed wording:
  - for index, cast and JSON errors, the `exceptionMessage` parameter;
  - in the executor, the `messages` field of `Host`, which gives the ArgumentNullException for a parameter name (`value` for Enum.Parse, `typeName` for Type.GetType), Enum.Parse's exceptions for a blank and for an unknown value, and Unity's MissingReferenceException for a destroyed GameObject.

  The model fixes which exception is thrown, not how the runtime words it.
- Executor.ParsePrimitive: does not model what else Enum.Parse accepts: numeric values, comma lists and white space around a name. Only the six names are parsed, in any ASCII case. A blank value is refused before it.
- Reflection (Type.GetType and Assembly.GetType) is the `Host` maps. An empty name is a miss, though the real call may throw.
- Unity's own AddComponent errors (a non-Component type, a duplicate disallowed component) are left out. Adding always appends.
- Hierarchy.Matches: a target containing `/` is compared with the whole path from a root, and Path never starts with `/`. So `/Cube` never finds the root Cube, and `Arm/Hand` is never found when Arm is not a root. In GameObject.Find a leading `/` means "from a root", and a path without one may match lower in the hierarchy.
- Unity's search and enumeration orders are all taken as increasing handle order:
  - GameObject.Find;
  - Resources.FindObjectsOfTypeAll;
  - the root order;
  - the sibling order.

  Reordering siblings is not modelled.
- Rename with a null name stores the empty name.
- instanceId is an abstract natural-number handle. Unity gives negative ids to objects created at runtime; the sign is not modelled, but the handle is still unique and written in decimal.
- MiniJson.ParseValue: the culture-sensitive String.StartsWith("true"/"false"/"null") is an ordinal prefix test. A culture whose comparison ignores some characters could match where the model does not.
- MiniJson.ValueAt: the same ordinal prefix test stands for the culture-sensitive StartsWith.
- Text.IsDigit: follows the Unicode table of current .NET. A runtime with an older table may lack some blocks. Code points outside the Basic Multilingual Plane are never digits, because in .NET they are surrogate pairs.
- Heap exhaustion is not modelled. The array loop that `[x]` sends round without moving is cut off at its first such turn as `Diverges`. The endpoints answer it as the OutOfMemoryException it ends in: a 400 "Invalid JSON: …" on /command/apply and a 500 on /play/run. How long the list grows first, and what else the exhaustion disturbs, is left out.
- Endpoints.UpperAscii: does not model ToUpperInvariant on non-ASCII letters. For example, `ſ` upper-cases to `S` in .NET.
- Endpoints.ParseInt32: does not model culture signs other than `+` and `-`, nor the trailing NUL characters that int.TryParse accepts.
- Timestamps are drawn from DateTime.UtcNow in the source. They are the `timestamp` argument of HandleLog. DateTime.TryParse is the `parseTime` parameter, returning ticks.
- JsonUtility.FromJson of the /scripts/write body is the `readScript` parameter.
- WriteScript's file-system work is not modelled, nor its exceptions, which would give a 500. For example, a lone `\` on Unix is accepted as `Assets/Generated/` (`ScriptWriter.UnixLoneBackslashNamesFolder`), but the source's resolved path then lacks `/Assets/Generated/`, and the security check throws. This covers:
  - Path.Combine;
  - the resolved-path check;
  - directory creation;
  - File.WriteAllText;
  - the asset import.
- Endpoints.PlaySeconds: the float-to-int cast of `seconds` is the `toSeconds` parameter. It is not derived from a float model.
