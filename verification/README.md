# Agentfile, verified

A Dafny model of the Agentfile toolchain: the instruction language and its `FROM` inheritance, the
agent lifecycle protocol of the two executors, the status tracker, the Docker-backed content store,
the log demultiplexer, layered configuration, OCI references and mount confinement. `dafny verify
dfyconfig.toml` checks all of it.

The model follows the Go code. Code that computes a value is a function; an object that is updated
in place is a class (`MutableAgent`, `LineParser`, `ConfigList`, `StatusTracker`, `AgentState`,
`Store`) whose methods are proved against a function of the old state; an accumulating loop is a
method with invariants; the concurrent protocols are step relations in which every mutex-guarded
section, tracker call, channel operation and process event is one atomic step, so that a theorem
about all action sequences is a theorem about all interleavings.

## The main results

**Language.** `DeclaresExactly` reads the four merge behaviours of the specification (replace,
append, keyed-merge, set-union) as statements about an instruction sequence and shows that the
parser's fold is the one agent satisfying them. `InheritanceIsConcatenation` shows that the
separately written parent/child merge computes the fold of the two files run together, and
`MergeAssociative` that any grouping of a chain gives the same agent (which needs no uniqueness of
context names). `ResolveExact`, `ResolveVerdict` and, on the FROM values themselves, `ResolveLiterally` decide the depth-bounded, cycle-checked resolver
by the shape of the ancestry alone, and `ResolvedIsParse` puts everything together: a successful
resolution is the parse of all the ancestors' lines, root first, and valid. `ParsesExactly` says when a
source parses without following the parser: every line is blank, a comment, or belongs to exactly one
instruction, and only one script accounts for the lines (`ScriptDetermined`). `TokensAreRuns`,
`MarkerExactly` and `ExtractExact` do the same for heredocs, from the text of the line alone.
`ExpansionIsSubstitution` removes the map order from ARG expansion, `ParseOrderIndependent` from the
whole parse.

**Lifecycle.** Over all interleavings of any number of Run, Start, Stop and Remove calls and a
supervisor: `HandshakeSafe`, `RemovalSticks`, `CancelledRunSettlesStopped`. Three races the code does
allow are exhibited as reachable states (`StoppedWhileRunning`, `RunAfterRemoved`,
`CancelledAfterCheckFails`; `FailedAfterRemoved` is another way out of Removed), and each has its exact
condition: `StoppedInFlightExactly`, `RemovalLeftExactly` and `CancelledRunFailsExactly`. The agent object refines the step relation
(`EnterSection`), whose status writes are calls of the tracker (`StatusIsTracked`). `HistoryRecords`
reads every run's state off the actions that led there, `LaunchedIsWatched` and `StopWaited` follow a
process from its launch to the Stop that waited for it, and no waiting Stop is ever stuck
(`StopCanReturn`).

**Status.** `TrackerSafe` covers every sequence of tracker calls and receives; `MissedExactly` covers
every interleaving of a waiting caller with others and says exactly when one is blocked on a target,
and `OverflowLosesWakeup` exhibits such a run.

**Store and logs.** `RoundTrip` and `RoundTripComplete` make the layout writer and reader inverse,
`SentIndex` and `ResolvedAmongOthers` say what names the image to a daemon and how it is found again;
`DemuxEncode`, `DemuxTruncated` and `TruncatedFrames` do the same for Docker's log framing.
`FetchableThroughout` says, over every sequence of calls, when a remembered ref can always be fetched.

**Configuration.** `Deploy` follows every CONFIG and ENV from its lines, through validation, override,
gate and flattening, to the variable the process reads. `LayeredPrecedence`, `LockedKeysExactly`,
`CredentialsExactly`, `OverrideReachesRuntime`, `OverrideKeepsValid`, `GateAgreesWithFlattened`,
`SplittersAgree`, `QualifyIdempotent`, `AcceptsByNet` and their companions state what the other
compositions of small functions amount to, each with its exact condition.

## Where the code and its documentation differ

- `WithConfig` promises that a matching declared key has its value replaced. It overwrites only the
  first entry of a key, so an override of a key declared both by a parent and by its child is lost
  (`OverrideLostOnDuplicate`); `OverrideReachesRuntime` and `OverrideSatisfiesGate` give the exact
  conditions.
- The comment on `WithExtraEnvs` says that validation runs after the overrides, so that reserved keys
  are still rejected before the agent starts. The materialiser validates before it applies them, and
  for CONFIG it has to (`OverrideKeepsValid`). Run-time ENVs are therefore never rejected (`Deploy`):
  reserved keys are skipped at spawn, and validation would have refused exactly the invalid overrides
  (`ExtraEnvsKeepValid`). An invalid one can do more than be skipped: a key such as `HOME=` passes the
  spawn-time filter and replaces the locked `HOME` (`HomeOverridden`; `LockedKeysExactly` is exact).
- `Tag` records the ref before it checks that the manifest is staged, so a failed tag leaves a ref
  that resolves to something that cannot be fetched (`TagUnstaged`, `TagKeepsFetchable`).
- The specification evaluates the required-key check on the flattened view of the CONFIGs. The gate
  takes a key's last entry even when flattening skips it for having no value, so `CONFIG k=v` followed
  by `CONFIG k!` is rejected although the runtime would see `k=v` (`GateRejectsSetKey`;
  `GateAgreesWithFlattened` is exact).
- `WaitForStatus` can block for good on a status the agent holds, once sixteen unread transitions
  made its subscription drop the transition to it (`MissedExactly`, `OverflowLosesWakeup`).
- Between the end of a run and its settling, a second run may begin and then be shown as Stopped
  (`StoppedInFlightExactly`). `Removed` does not stop a later Run, and on the system backend a Start
  that had read Stopped or Failed before the removal overwrites it with Failed when its credential
  refresh fails (`FailedAfterRemoved`); supervisor writes apart, there is no other way out
  (`RemovalLeftExactly`).
- A cancellation that comes after the failure check does not keep a run from settling as Failed
  (`CancelledRunFailsExactly`). Neither does an earlier one if somebody else records a failure before
  the run settles: the supervisor, or another Start of the same agent whose credential refresh fails
  (`CancelledBesideFailingStart`).

## Model

| member | source | states |
|---|---|---|
| `AgentSpec.LastNamed` | resolve/resolve.go:191-210 | the index held by the by-name map: the last context of that name, or none |
| `Inheritance.ReplaceFirstIsUpsert` | spec/parse.go:178-190 | on unique names the parser's replace-the-first loop equals the resolver's keyed overwrite of the last |
| `Inheritance.MergeContextsAssociative` | resolve/resolve.go:191-210 | keyed-merge of contexts is associative for lists of any shape |
| `Inheritance.DedupProperties` | resolve/resolve.go:168-189 | the union keeps exactly the elements, each once |
| `Inheritance.DedupAddCapabilities` | spec/parse.go:252-273 | deduplicating while parsing and deduplicating while merging commute |
| `Inheritance.FoldNormal` | spec/parse.go:154-274 | every parsed agent has one context per name and one entry per capability |
| `Inheritance.MergeAfterApply` | resolve/resolve.go:91-166 | one more line in the child is one more line applied to the merged agent, for every instruction |
| `Inheritance.InheritanceIsConcatenation` | resolve/resolve.go:91-210 | for all instruction sequences, merging the two parses equals parsing the concatenation, on every field, if and only if the child has a FROM or the parent has none |
| `Inheritance.MergeAssociative` | resolve/resolve.go:78-210 | merge is associative on all agents, including the drop-CONFIGs-on-RUNTIME rule and first-appearance order |
| `Declarations.FoldDeclares` | spec/parse.go:154-274 | scalars are the last declaration, CONFIGs those after the last RUNTIME, lists everything in order, keyed entries the last per key in order of first appearance, capabilities the set-union |
| `Declarations.DeclaresExactly` | AGENTFILE-v1.0.0.md:246-261 | the four merge behaviours determine the agent: an agent satisfies them, every field of every entry included, if and only if it is the fold |
| `Declarations.MergeDeclares` | AGENTFILE-v1.0.0.md:248-250 | the same four behaviours govern FROM inheritance |
| `Declarations.ConfigsHeld` | spec/parse.go:192-205 | an entry is held if and only if some CONFIG line after the last RUNTIME says it, field by field: key, required mark, description, and a quoted value as text before an unquoted one before none |
| `Declarations.RequiredExactly` | spec/parse.go:192-196 | a key is required if and only if some CONFIG line for it after the last RUNTIME marks it so |
| `Declarations.BinsHeld` | spec/parse.go:207-218 | the BIN entries held are those of the BIN lines: name, image, description, and the heredoc as usage |
| `Declarations.AddsHeld` | spec/parse.go:220-232 | the ADD entries held are those of the ADD lines: source, destination or else the base name of the source, description |
| `Declarations.BaseNameIs` | spec/parse.go:225-228 | the base name is the last component of the path, trailing slashes apart |
| `Declarations.BaseNameOfSlashes` | spec/parse.go:225-228 | a source without a component is called "." when empty and "/" when all slashes |
| `Declarations.EnvsHeld` | spec/parse.go:245-250 | the ENV entries held are those of the ENV lines: key, value, description |
| `Declarations.ContextsHeld` | spec/parse.go:166-190 | a context is held if and only if the last CONTEXT line of its name says it: the heredoc as content, the argument as file |
| `AgentMutation.MutableAgent.ApplyInstruction` | spec/parse.go:154-274 | the in-place switch changes the agent exactly as the instruction's meaning says, all other fields untouched |
| `AgentMutation.MutableAgent.PutContext` | spec/parse.go:178-190 | overwrites the first context of that name in place, or appends |
| `AgentMutation.MutableAgent.Grant` | spec/parse.go:258-272 | adds each non-empty name that is not granted yet, in order |
| `AgentMutation.Replay` | spec/parse.go:38-95 | reading a sequence of lines into a fresh agent yields their fold, in normal form |
| `AgentMutation.MergeContextLists` | resolve/resolve.go:191-210 | the map-indexed loop computes the keyed-merge, duplicates in the parent included |
| `AgentMutation.MergeStringSet` | resolve/resolve.go:168-189 | the two loops compute the ordered union: no duplicates, exactly the members of both |
| `AgentMutation.MergeParentChild` | resolve/resolve.go:91-166 | the assembled merge of all thirteen fields |
| `Resolve.FiniteAncestryDistinct` | resolve/resolve.go:52-63 | a finite ancestry never names the same normalised reference twice |
| `Resolve.ResolveFinite` | resolve/resolve.go:41-76 | an ancestry that ends within the bound is walked to its end: success is the root-to-child merge, failure is the unfetchable FROM; the cycle check never interferes |
| `Resolve.ResolveSound` | resolve/resolve.go:41-76 | whatever the fetcher does, success exhibits a root within the bound and every fetch is the FROM of the next ancestor |
| `Resolve.ResolveExact` | resolve/resolve.go:37-89 | Resolve succeeds if and only if a root is reached within ten hops; the result is the root-to-child merge, one fetch per hop, never more than eleven |
| `Resolve.ResolveLong` | resolve/resolve.go:44-63 | an ancestry past the bound is a cycle error if a reference repeats, a depth error if none does |
| `Resolve.ResolveVerdict` | resolve/resolve.go:41-76 | the complete verdict (merged file, fetch failure, cycle, too deep) by the shape of the ancestry |
| `Resolve.ResolveOci` | resolve/resolve.go:37-76 | the theorem for references normalised by ParseReference, with fetch a function of the normalised reference |
| `Resolve.ResolveScratch` | resolve/resolve.go:48-50 | a file is handed back without a fetch if and only if its FROM is empty or the word scratch |
| `Resolve.ResolveLiterally` | resolve/resolve.go:37-76 | Resolve succeeds if and only if there is a chain of at most ten fetches, each of what the previous FROM (neither empty nor scratch) parses to, that ends in a file whose FROM is empty or scratch; the result is the merge of that chain; a chain of eleven fetches fails, as a cycle if two of the FROMs have one name:tag form and as too deep otherwise |
| `Resolve.OciHop` | resolve/resolve.go:54-65 | a hop of such a chain is a fetch of the reference the FROM parses to |
| `Resolve.CycleNamed` | resolve/resolve.go:57-63 | a cycle error lists the normalised references walked, in order, and then the one that repeats |
| `Resolve.MergedSyntax` | resolve/resolve.go:78-89 | the syntax of a merged lineage is that of the nearest file that names one |
| `Resolve.SuccessIsMerge` | resolve/resolve.go:41-76 | whatever the registry does, a success is the root-to-child merge of as many ancestors as were fetched |
| `Resolve.ResolvedIsConcatenation` | resolve/resolve.go:41-89 | the merge of a lineage of parsed files is the parse of all its lines, root first, run together |
| `ResolvedParse.ResolvedIsParse` | resolve/resolve.go:37-89 | if the file and every file served was parsed, a successful resolution walked to a root and is the parse of the whole lineage's scripts, root first; it is valid and of the supported syntax |
| `References.ParseSplit` | spec/reference.go:32-53 | the index arithmetic amounts to: split at the last colon if it follows the last slash and is not first |
| `References.ParseOfJoin` | spec/reference.go:29-53 | name:tag parses to (name, tag) if and only if the name is non-empty and the tag has neither colon nor slash |
| `References.ParsedTagPlain` | spec/reference.go:32-53 | a parsed tag never holds a colon or slash; only the empty string has an empty name |
| `References.RenderParse` | spec/reference.go:56-63 | a rendered reference parses back to its name and effective tag, and renders the same again |
| `References.NormalizeIdempotent` | spec/reference.go:32-63 | normalising is idempotent on a string if and only if it is not empty |
| `References.SplittersAgree` | executor/system/registry.go:495-509 | the two splitters agree on a string if and only if it is non-empty, has no at-sign, and is not slash-free with its last colon first |
| `References.DigestSplit` | executor/system/registry.go:495-509 | name@digest splits into name and digest if and only if the digest holds no at-sign |
| `References.UntaggedIsLatest` | spec/reference.go:32-63 | without a colon the tag is latest |
| `References.QualifiedByRegistry` | spec/reference.go:76-92 | once a registry is prepended, its first segment alone decides qualification |
| `References.QualifyIdempotent` | spec/reference.go:98-107 | qualification is idempotent if and only if nothing is prepended or the registry's first segment looks like a host |
| `References.QualifyKeeps` | spec/reference.go:98-107 | qualification keeps the tag, and the name or the registry, a slash and the name |
| `References.QualifyExactly` | spec/reference.go:71-107 | a name with a slash is prefixed if and only if there is a default registry and what precedes the first slash is neither localhost nor holds a dot or a colon |
| `Heredoc.SplitQuoted` | spec/parse.go:365-395 | the scanning loop computes the quote-aware tokens |
| `Heredoc.TokensAreRuns` | spec/parse.go:365-395 | the tokens are the texts of the maximal runs without a blank at an even count of quotation marks, all of them, in order |
| `Heredoc.MarkerExactly` | spec/parse.go:276-291 | a line that does not end in a blank announces a heredoc with marker m if and only if it ends in << and a non-empty m, at its start or after an unquoted blank, with no unquoted blank inside |
| `Heredoc.LastTokenIsSuffix` | spec/parse.go:365-395 | the last token of text not ending in a blank runs to its very end |
| `Heredoc.CutRemovesLastToken` | spec/parse.go:292-293 | on a trimmed line the cut at the last occurrence of the last token removes precisely that token |
| `Heredoc.TrimmedIsBody` | spec/parse.go:295-307 | right-trimming newlines off the accumulated text is dropping the trailing empty lines |
| `Heredoc.BodyKeeps` | spec/parse.go:295-307 | the body is the lines up to the last that is not empty, joined by newlines |
| `Heredoc.TrimSpaceCuts` | spec/parse.go:293-300 | trimming cuts Unicode white space off both ends and leaves none there |
| `Heredoc.ReadBody` | spec/parse.go:297-309 | the loop returns the lines up to the first that trims to the marker and where to resume, or fails if there is none |
| `Heredoc.ExtractHeredoc` | spec/parse.go:276-310 | the whole extraction: rest of the line, body, next line |
| `Heredoc.ExtractExact` | spec/parse.go:276-310 | a line that announces nothing is handed back alone; from one that announces a marker (by its text) the announcement is cut, what is consumed is exactly body and marker lines, and extraction fails if and only if no line trims to the marker |
| `Parser.LineParser.Parse` | spec/parse.go:38-110 | the parser object returns the verdict of the recursion over the lines: first error, misplaced FROM, validation fault or folded agent |
| `Parser.LineParser.Advance` | spec/parse.go:41-95 | one turn of the loop, with syntax pragma, byte-order mark, blank, comment and instruction lines |
| `Parser.LineParser.Step` | spec/parse.go:63-94 | one instruction line and its heredoc: the agent is the fold of the statements so far and the line counter is past them |
| `Parser.LineParser.ReadOne` | spec/parse.go:63-92 | unterminated heredoc, bad tokens, second FROM and file-plus-heredoc are rejected in that order |
| `Parser.LineParser.Finish` | spec/parse.go:97-109 | FROM must be the first instruction, the syntax defaults, and the agent must validate |
| `Parser.ParseIsFold` | spec/parse.go:38-110 | a successful parse is the fold of the one script that accounts for the source: its first instruction and no other is a FROM, every line is blank, a comment or in exactly one statement, and each statement starts on a line that is neither and is what that line and its body read as under the ARGs before it |
| `ParseVerdict.StatementRead` | spec/parse.go:63-94 | each statement is its line less the heredoc, read under the ARGs of exactly the statements before it; the body reaches CONTEXT content and BIN usage and nothing else, and never beside a file |
| `ParseVerdict.StatementExpanded` | spec/parse.go:63-76 | what is read of a line is the grammar applied to its expansion under those ARGs |
| `ParseVerdict.ParsesExactly` | spec/parse.go:38-110 | a source parses to an agent if and only if some statements account for every line, with a syntax comment only on line one and only for the supported syntax, no byte-order mark and no read error, and they start with FROM and fold to that agent, which is valid |
| `Parser.ScriptDetermined` | spec/parse.go:41-95 | source and reader determine the script |
| `Parser.ParseOrderIndependent` | spec/parse.go:63-73 | for plain instruction lines under plain ARGs the parse is the same however each expansion visits the map |
| `Parser.ParsedInheritance` | spec/parse.go:38-110 | two files that parse: their merge is the fold of both scripts together, and valid |
| `ArgExpansion.ExpandArgs` | spec/parse.go:397-407 | the loop is one replacement per ARG in some order of the map, skipped without an opener |
| `ArgExpansion.ReplaceOne` | spec/parse.go:402-404 | one replacement over a rendered template substitutes exactly that name |
| `ArgExpansion.ExpansionIsSubstitution` | spec/parse.go:397-407 | on plain templates and values sequential replacement equals simultaneous substitution for every map order; undefined references survive |
| `ArgExpansion.ReferenceReplaced` | spec/parse.go:397-407 | a reference, dollar brace name brace, in plain text becomes the ARG's value, or stays if there is none |
| `ArgExpansion.ExpansionOrderIndependent` | spec/parse.go:402-404 | two map orders give the same line |
| `ArgExpansion.OrderMattersExactly` | spec/parse.go:402-404 | for any plain line and two ARGs, the first standing for any plain template, both map orders give the same text if and only if the line does not refer to the first, or that template not to the second, or the second stands for its own reference |
| `ArgExpansion.OrderMattersOtherwise` | spec/parse.go:402-404 | so with a reference as a value two orders give two different lines |
| `Validation.Validate` | spec/parse.go:498-562 | accepts exactly the agents that satisfy every rule, and otherwise points at a part that breaks one |
| `Validation.PathSafeStays` | spec/parse.go:435-463 | an accepted name is a single path component that is neither . nor .. and starts with neither dot nor dash |
| `Validation.PathSafeShape` | spec/parse.go:435-440 | the path-safe pattern: a letter or digit, then at most 62 letters, digits, dots, underscores and dashes |
| `Validation.LabelShape` | spec/parse.go:442-445 | the DNS-1123 label pattern (section 2.1 of RFC 1123): one small letter or digit, or two with at most 61 of these and dashes between |
| `Validation.EnvNameShape` | spec/parse.go:656-668 | the ENV name pattern: a capital or underscore, then capitals, digits and underscores |
| `Validation.ReservedNames` | spec/parse.go:447-687 | a valid context is none of AGENT, WORKSPACE and MOUNTS, and a valid ENV is not reserved at spawn |
| `Validation.MergePreservesValid` | resolve/resolve.go:91-166 | the merge of two valid agents is valid |
| `Validation.ValidPartsSpawn` | spec/parse.go:612-687 | a validated ENV passes the spawn-time filter and a validated CONFIG key exports without collision |
| `Validation.ValidAgentSpawns` | spec/parse.go:658-687 | a validated agent's spawn has no key or provider with an equals sign if and only if its run-time overrides and its provider have none |
| `Validation.OverrideKeepsValid` | executor/system/workspace.go:166-175 | configs stay valid under WithConfig if and only if no supplied key is marked required and every undeclared one is a label |
| `Configs.Flatten` | executor/system/workspace.go:926-935 | each non-empty key maps to the last value set for it; valueless entries never hide one |
| `Configs.RequiredConfigsProvided` | spec/parse.go:580-610 | reports, sorted, exactly the required keys whose last entry has no value |
| `Configs.GateGuaranteesFlattened` | spec/parse.go:564-610 | if the gate accepts, every required key reaches the runtime with its last declared value |
| `Configs.GateAgreesWithFlattened` | AGENTFILE-v1.0.0.md:257-261 | gate and flattened view agree on a required key unless, and only unless, a valueless last entry hides a value that flattening keeps (or the key is empty and set) |
| `Configs.GateRejectsSetKey` | spec/parse.go:584-602 | a concrete list that is rejected although the runtime would see the value |
| `Configs.ConfigList.WithConfig` | spec/types.go:201-236 | overwrites the first entry of each supplied key in place and appends the undeclared ones sorted |
| `Configs.ConfigList.OverwriteDeclared` | spec/types.go:207-221 | the walk over the entries and the working map |
| `Configs.ConfigList.AppendUndeclared` | spec/types.go:223-234 | the appended entries |
| `Configs.OverrideViews` | spec/types.go:201-236 | the last set value and the last entry of every key after an override, supplied or not |
| `Configs.OverrideReachesRuntime` | spec/types.go:189-236 | a supplied value is what the runtime sees if and only if no later duplicate sets something else; keys not supplied are unaffected |
| `Configs.OverrideSatisfiesGate` | spec/types.go:194-200 | a supplied key is still missing if and only if it was required and its last entry was a valueless duplicate |
| `Configs.OverrideRequires` | spec/types.go:212-234 | an override changes no key's requiredness |
| `Configs.OverrideOfUniqueKeys` | spec/types.go:189-236 | when keys are declared at most once, every supplied value takes effect and satisfies its requirement |
| `Configs.OverrideLostOnDuplicate` | spec/types.go:212-221 | a concrete override that is lost |
| `SortedKeys.SortKeys` | spec/types.go:225-230 | the strictly increasing listing of exactly the keys |
| `SortedKeys.LessExactly` | executor/env.go:171-177 | the order is that of the first differing characters, a proper prefix first |
| `SortedKeys.ListingUnique` | executor/env.go:171-177 | there is one such listing, so map order cannot show |
| `SpawnEnv.BuildConfigKey` | executor/env.go:26-41 | the character loop computes the variable name |
| `SpawnEnv.ConfigKeyIs` | executor/env.go:19-41 | RUNTIME_ and, per character, the capital of a letter, a digit, or an underscore |
| `SpawnEnv.ConfigKeysInjective` | executor/env.go:19-41 | on DNS-1123 label keys (section 2.1 of RFC 1123) the rewrite is injective |
| `SpawnEnv.AppendConfigEnv` | executor/env.go:166-185 | appends one entry per non-empty key, in sorted order |
| `SpawnEnv.ConfigPairsLookup` | executor/env.go:166-185 | of several keys that export to one name, the greatest in sorted order is seen |
| `SpawnEnv.AppendUserEnv` | executor/env.go:192-213 | appends every entry that is neither nil, unnamed nor reserved, and returns the reserved ones |
| `SpawnEnv.BuildEnv` | executor/system/process.go:102-124 | the list is locked base, credentials, CONFIG export, user ENV |
| `SpawnEnv.LockedValues` | executor/env.go:105-131 | what the locked base holds under each of its ten names |
| `SpawnEnv.ReservedExactly` | executor/env.go:144-223 | the names a user ENV may not set: the ten locked ones and those ending in _API_KEY or _API_BASE |
| `SpawnEnv.ProviderExactly` | executor/system/process.go:126-135 | the provider of a model is p if and only if the model is p, which is not empty and holds no slash, then a slash |
| `SpawnEnv.ToUpperIs` | executor/system/process.go:110-111 | upper-casing replaces each small letter by its capital and nothing else |
| `SpawnEnv.AnthropicCredentials` | executor/system/process.go:110-118 | a model anthropic/... is given ANTHROPIC_API_KEY and ANTHROPIC_API_BASE |
| `SpawnEnvLayers.LayeredPrecedence` | executor/docker/container.go:260-297 | last-write-wins lookup of every name is what user ENV says under it, else CONFIG, else credential, else locked base, for keys and providers of any shape |
| `SpawnEnvLayers.UserSeenExactly` | executor/env.go:192-213 | user ENV says something under a name if and only if an admitted entry's key is that name up to its first equals sign |
| `SpawnEnvLayers.LockedKeysExactly` | executor/env.go:132-152 | a locked key reads its base value, or else what an ENV key or provider with an equals sign in it smuggles in under its name |
| `SpawnEnvLayers.LockedKeysKept` | executor/env.go:132-152 | no layer overrides a locked key under which nothing is smuggled in |
| `SpawnEnvLayers.HomeOverridden` | executor/env.go:187-223 | an ENV called HOME= replaces the locked HOME |
| `SpawnEnvLayers.DaemonBothOrNeither` | executor/env.go:119-127 | the daemon URL and token are both present with their values or both absent, unless one of them is smuggled in; both or neither are present if and only if both are configured, or both or neither smuggled in |
| `SpawnEnvLayers.DaemonAccessKeepsPair` | executor/docker/container.go:228-252 | rewriting the URL for the container neither empties nor creates it, and loses nothing of a socket path |
| `SpawnEnvLayers.DaemonAccessExactly` | executor/docker/container.go:228-252 | a unix URL becomes the bound socket, one that mentions host.docker.internal gets that host mapped, any other stays as it is |
| `SpawnEnvLayers.ConfigRecovered` | executor/env.go:154-185 | every CONFIG with a label key is read back under its variable unless the user's ENV says something there |
| `SpawnEnvLayers.Exportable` | executor/env.go:26-41 | a name can come from a CONFIG if and only if it is the prefix and legal characters |
| `SpawnEnvLayers.CredentialsExactly` | executor/system/process.go:110-121 | a credential reaches the process if and only if the provider holds no equals sign and neither user ENV nor CONFIG says something else under its name |
| `SpawnEnvLayers.CredentialsKept` | executor/docker/container.go:280-294 | CONFIG never gets in the way when the provider is neither RUNTIME nor starts with RUNTIME_ |
| `SpawnEnvLayers.RuntimeProviderShadowed` | executor/system/process.go:110-120 | a provider called runtime loses its key to a CONFIG |
| `Deployment.Deploy` | executor/system/workspace.go:166-175 | validate, override CONFIG and ENV, gate, flatten and spawn together: the agent is refused if and only if its declarations are invalid or a required key stays unset, naming the fault or all such keys; otherwise the process sees for every settled key that counts what the merged ENV says, else the supplied value (or a later entry that sets another), else the last one declared, and under a locked name the base unless an override or the provider smuggles something in |
| `Deployment.ValidKeysCount` | executor/env.go:19-25 | when supplied keys are labels, every settled key of a validated agent counts |
| `Deployment.SettledView` | executor/system/workspace.go:844-855 | what gate and flattening see of an overridden list, in terms of the declared lines and the supplied values |
| `Deployment.SeenByProcess` | executor/env.go:154-185 | after flattening, the variable shared by several keys carries the last set value of the greatest, below the user ENV and above all else |
| `SpawnEnvLayers.WithExtraEnvs` | spec/types.go:162-187 | declared entries that are not overridden, in order, then the overrides |
| `SpawnEnvLayers.ExtraEnvsOverride` | spec/types.go:141-187 | for every name what the overrides say is seen if they say anything, else what the declarations say |
| `Validation.ExtraEnvsKeepValid` | spec/types.go:141-147 | validating after the ENV overrides would accept if and only if the overrides are valid, and at spawn exactly their reserved entries are skipped |
| `MountPaths.AcceptsExactlyInside` | executor/system/workspace.go:581-595 | a target is accepted if and only if it is non-empty and the cleaned join has the cleaned root as a component-wise prefix |
| `MountPaths.PiecesExactly` | executor/system/workspace.go:581-595 | a path is cut at its slashes: slash-free texts joined by slashes are its pieces |
| `MountPaths.WalkByNet` | executor/system/workspace.go:587-589 | walking a relative path is climbing its net number of levels and descending its net names |
| `MountPaths.AcceptsByNet` | executor/system/workspace.go:581-595 | the verdict from the target alone: no net climb, or a climb that comes back through the same names |
| `MountPaths.PlainTargetsAccepted` | executor/system/workspace.go:578-595 | every target without a dot-dot component is accepted and lands below the root |
| `StatusTracking.StatusTracker.SetLocked` | executor/status.go:171-185 | sets status and reason and offers the status once to every live channel, dropping it at the full ones, in any map order |
| `StatusTracking.StatusTracker.Set` | executor/status.go:133-138 | records a status without a reason |
| `StatusTracking.StatusTracker.SetFailure` | executor/status.go:141-146 | records Failed with its reason |
| `StatusTracking.StatusTracker.SetUnless` | executor/status.go:152-165 | records and reports it unless the current status is guarded |
| `StatusTracking.StatusTracker.Subscribe` | executor/status.go:189-196 | a fresh empty channel under the next id |
| `StatusTracking.StatusTracker.Cancel` | executor/status.go:199-207 | removes and closes once |
| `StatusHistory.StepKeeps` | executor/status.go:133-210 | every tracker call and receive keeps the subscription invariant |
| `StatusHistory.TrackerSafe` | executor/status.go:133-210 | over every sequence of calls: a reason implies Failed, no live channel is closed, each open one has its own id, and deliveries are in order exactly the transitions that did not meet a full buffer, hence a subsequence, and all of them if it was never full |
| `StatusHistory.LostExactly` | executor/status.go:171-185 | a transition does not reach a subscription if and only if it was cancelled or sixteen entries were unread |
| `StatusHistory.FreshId` | executor/status.go:189-196 | the id of each of the first 2^64 subscriptions is new |
| `StatusWait.MissedExactly` | executor/status.go:212-247 | a caller blocked on an empty channel has missed a target if and only if a transition to a target met a full buffer, and its target is the current status if and only if the latest transition did; what it returns is a target held during the call |
| `StatusWait.NoLostWakeup` | executor/status.go:213-247 | in particular a blocked caller that lost no target has missed none and the status is none |
| `StatusWait.OverflowLosesWakeup` | executor/status.go:94-96 | a run in which the caller is blocked although the status is its target |
| `StatusWait.CallerGivesUp` | executor/status.go:240-247 | a waiting caller can give up |
| `Lifecycle.AgentState.BeginRun` | executor/system/agent.go:159-174 | installs running, cancel and ran together for one run, or rejects and changes nothing; never leaves them half set |
| `Lifecycle.AgentState.ClearRun` | executor/system/agent.go:178-183 | clears them together |
| `Lifecycle.AgentState.Snapshot` | executor/system/agent.go:250-254 | the captured cancel and ran are those of one and the same run, the installed one, and are present exactly while one is running |
| `Lifecycle.EnterSection` | executor/docker/agent.go:215-268 | the object and the step relation agree on every action: fields before and after, whether a Run or Start is admitted, what a Stop captures |
| `LifecycleSafety.StatusIsTracked` | executor/status.go:133-185 | the status and reason each step leaves are those of the tracker call it makes |
| `LifecycleSafety.DoKeeps` | executor/docker/agent.go:171-326 | every atomic step of either backend keeps the inductive invariant |
| `LifecycleSafety.HandshakeSafe` | executor/system/agent.go:159-270 | in every reachable world: the handshake is whole, at most one run is inside it, each ran closes once and after settling, a kill follows interrupt and grace, and a Stop returned nil only after its run settled with no process left |
| `LifecycleHistory.HistoryRecords` | executor/system/agent.go:139-189 | in every interleaving a run has taken each step exactly if its fields say so: prepared, launched, watched, interrupted, killed, waited for, cleared, settled, closed |
| `LifecycleHistory.LaunchedIsWatched` | executor/system/process.go:46-60 | after a successful launch the process is alive until it exits, and the run stays under watch until, and only until, it has waited for it |
| `LifecycleHistory.StopWaited` | executor/system/agent.go:250-270 | a Stop returned nil only after its run cleared, settled and closed ran, and, if it had launched, after the wait (system) or the end of the log stream (docker) |
| `LifecycleHistory.KilledInOrder` | executor/system/process.go:62-75 | a kill comes only after the grace period, that after an interrupt, that after a launch and a cancellation, that after Starting and Pulling |
| `LifecycleHistory.HistoryCalls` | executor/system/agent.go:202-293 | Stop and Remove calls have taken exactly the steps their phase says, and a Start went on, once, exactly if it saw Stopped or Failed |
| `LifecycleHistory.StopCanReturn` | executor/docker/agent.go:260-287 | no deadlock: in every reachable world of either backend a Stop that waits can still return nil |
| `LifecycleHistory.StoppedOnExit` | executor/system/process.go:46-56 | on either backend a Stop returns nil after a run that ended by itself |
| `LifecycleHistory.StoppedWithinGrace` | executor/system/process.go:64-70 | a Stop returns nil after its interrupt made the process exit within the grace period |
| `LifecycleHistory.StoppedByKill` | executor/system/process.go:64-75 | a Stop returns nil after interrupt, grace period and kill, the process waited for |
| `LifecycleHistory.StopGaveUp` | executor/system/agent.go:262-270 | a Stop whose context ends first gives up while the run goes on |
| `LifecycleHistory.ContainerFailed` | executor/docker/agent.go:171-213 | on docker a run may still fail after Starting was recorded |
| `LifecycleSafety.RemovalSticks` | executor/system/agent.go:272-293 | once Removing is recorded the status stays Removing or Removed while no new run begins after the snapshot and no supervisor or failing Start writes it from Removing on, runs not yet settled included |
| `LifecycleSafety.CancelledNeverReports` | executor/docker/agent.go:207-213 | a run cancelled before its failure check never records a failure |
| `LifecycleSafety.CancelledRunSettlesStopped` | executor/system/agent.go:119-189 | such a run settles Stopped (or leaves Removing or Removed), even if the agent was Failed when it began |
| `LifecycleSafety.CancelledRunFailsExactly` | executor/docker/agent.go:207-243 | while no supervisor and no failing Start records a failure, a cancelled run of either backend can still settle Failed if and only if it is past its check and about to report, or its report still stands, or it has settled so |
| `LifecycleSafety.StoppedWhileRunning` | executor/system/agent.go:178-189 | the status can read Stopped while a run is in flight |
| `LifecycleSafety.StoppedInFlightExactly` | executor/system/agent.go:139-189 | without a later run or supervisor write, a run that has just begun can read Stopped after its Pulling if and only if an earlier one has cleared the handshake and not settled; counting the moment before its Pulling too, if and only if that or the status was Stopped already |
| `LifecycleSafety.RemovalLeftExactly` | executor/system/agent.go:202-293 | after any removal a new run would be admitted; without one and without supervisor writes the status can leave Removing and Removed if and only if, on the system backend, a Start that passed its check may still fail; and a step opens a way out if and only if it admits a run or such a Start is pending |
| `LifecycleSafety.FailedAfterRemoved` | executor/system/agent.go:203-216 | a run in which a pending Start overwrites Removed with Failed |
| `LifecycleSafety.RunAfterRemoved` | executor/system/agent.go:139-146 | a run in which Removed is overwritten by a later Run |
| `LifecycleSafety.CancelledAfterCheckFails` | executor/docker/agent.go:209-213 | a run that is cancelled after its check and settles Failed |
| `LifecycleSafety.CancelledBesideFailingStart` | executor/system/agent.go:178-216 | a run cancelled in time that settles Failed because another Start recorded a failure |
| `DockerStore.BuildLayoutTar` | executor/docker/store.go:322-370 | marker, index and one file per blob, each blob once, in some order of the map |
| `DockerStore.SentIndex` | executor/docker/store.go:329-356 | the layout has one index.json, listing one manifest: the completed media type, digest and size, and ref under both org.opencontainers.image.ref.name and io.containerd.image.name |
| `DockerStore.SentBlobs` | executor/docker/store.go:358-363 | its other files are the staged blobs under blobs/algorithm/hex, all of them and nothing else |
| `DockerStore.PickManifest` | executor/docker/store.go:395-408 | the first entry naming the ref, else the only entry |
| `DockerStore.PickExactly` | executor/docker/store.go:390-408 | by position: the first entry one of whose two annotations is ref, else the only entry |
| `DockerStore.ResolvedAmongOthers` | executor/docker/store.go:285-408 | the entry Tag wrote for ref resolves ref in an index of any length, if no earlier one carries ref |
| `DockerStore.ReadFails` | executor/docker/store.go:237-313 | an absent image, a broken archive and one without index.json fail in their own way, in this order |
| `DockerStore.IndexFails` | executor/docker/store.go:285-313 | so do an index that does not decode and one of several entries none of which carries ref; the last index.json counts |
| `DockerStore.Store.Push` | executor/docker/store.go:80-92 | stages bytes and descriptor under the digest, or nothing if the blob cannot be read |
| `DockerStore.Store.Exists` | executor/docker/store.go:100-106 | true if and only if a fetch would succeed |
| `DockerStore.Store.Fetch` | executor/docker/store.go:112-126 | the staged bytes or not found |
| `DockerStore.Store.Resolve` | executor/docker/store.go:133-151 | the cached descriptor, else the hydrated one, which is then cached |
| `DockerStore.Store.Hydrate` | executor/docker/store.go:237-313 | reads the archive; all staging maps change only on success |
| `DockerStore.Store.Tag` | executor/docker/store.go:162-225 | completes the descriptor, records the ref, and commits the layout of everything staged unless the ref has no colon, is a digest, or its manifest is missing |
| `DockerStore.LayoutReadBack` | executor/docker/store.go:252-282 | reading a written layout back, in any blob order, gives exactly its sha256 blobs and its index |
| `DockerStore.RoundTrip` | executor/docker/store.go:162-370 | a fresh store resolving the ref gets the same media type, digest and size and holds byte for byte the staged sha256 blobs and nothing else (OCI Image Layout Specification) |
| `DockerStore.RoundTripComplete` | executor/docker/store.go:273-280 | every staged blob survives if and only if every staged digest is a sha256 |
| `DockerStore.BareCompleted` | executor/docker/store.go:162-178 | a descriptor with only a digest is completed with what was pushed, or read from an archive, under that digest |
| `DockerStore.ShipAndFetch` | executor/docker/store.go:112-225 | tag in one store, resolve in another, fetch anything: the same answer as in the first |
| `DockerStore.TagKeepsFetchable` | executor/docker/store.go:175-205 | cached refs stay fetchable if and only if the tagged manifest was staged |
| `DockerStore.ResolveKeepsFetchable` | executor/docker/store.go:237-313 | likewise for resolving, if and only if the index names a blob the archive or the store holds |
| `DockerStore.FetchableThroughout` | executor/docker/store.go:77-225 | over every sequence of pushes, tags and resolves each remembered ref can be fetched at every moment if and only if every call named a manifest that was there |
| `DockerStore.TagUnstaged` | executor/docker/store.go:180-205 | a failed tag leaves a ref that resolves to an unfetchable manifest |
| `DockerStore.TagThenResolve` | executor/docker/store.go:162-182 | a tagged ref resolves to its descriptor, media type and size completed from what is staged, whatever the daemon holds |
| `DockerStore.ResolveIsStable` | executor/docker/store.go:133-151 | once resolved, a ref answers the same until it is tagged again |
| `LogDemux.StdCopy` | executor/docker/exec_async.go:44-76 | writers that take what is due get exactly the demultiplexed streams and only the source can fail; a writer that stops has taken exactly its limit, the other a prefix, and its error is reported unless it looks like an end of file |
| `LogDemux.DemuxEncode` | executor/docker/exec_async.go:33-76 | demultiplexing inverts framing: stdout and stderr are the payloads of streams 1 and 2 (Docker Engine API, attach stream format) |
| `LogDemux.FrameLayout` | executor/docker/exec_async.go:33-60 | a frame is the stream, three bytes, the length in big-endian order, and the payload (Docker Engine API, attach stream format) |
| `LogDemux.DemuxEncodeThen` | executor/docker/exec_async.go:46-75 | whole frames are delivered first, whatever follows them |
| `LogDemux.DemuxTruncated` | executor/docker/exec_async.go:47-74 | cutting any byte source short only shortens the outputs |
| `LogDemux.TruncatedFrames` | executor/docker/exec_async.go:47-74 | a truncated frame stream yields prefixes of exactly the payloads sent |

## Left out

- Lexing: one line's keyword normalisation, grammar and unquoted-value typing are a parameter of the parser that yields instructions whose scalar arguments and EXEC lists are non-empty.
- ArgExpansion.ExpansionIsSubstitution: plain text, names and values are sufficient, not necessary; outside them the outcome is characterised for two ARGs whose values are templates (OrderMattersExactly), not for every text.
- Nil entries in an agent's CONTEXT, CONFIG, BIN, ADD and ENV lists (nil entries among run-time ENV overrides are modelled), and sharing of one record by two agents after a merge.
- `Agentfile.Apply`, `WithRuntime`, `WithModel` and `WithMounts`: plain setters; RuntimeMounts is not part of the agent here.
- Configs.Flatten: how a value is printed is a parameter, because only that a string prints as itself matters to the results.
- SpawnEnvLayers.LayeredPrecedence: an entry is read under the text before its first equals sign; names that themselves begin with one, for which os/exec has a rule of its own, are not treated apart.
- SpawnEnv.BuildEnv: path joining is a parameter, and upper-casing of a provider name is that of ASCII.
- DockerStore.RoundTrip: tar bytes are an ordered list of named files, the index's JSON codec an invertible parameter, and what the daemon saves for a ref is taken to be what was loaded for it; image-ID lookup is not modelled.
- DockerStore.Store.Hydrate: the store is sequential, as its documentation demands; its mutex is not modelled.
- MountPaths.AcceptsExactlyInside: for absolute roots and Unix separators; symbolic links on disk are not considered, as in the code.
- StatusHistory.TrackerSafe: for fewer than 2^64 subscriptions on one tracker, after which its ids repeat.
- Lifecycle: clocks and fairness (grace expiry and cancellation are steps that may happen at any time), so no liveness beyond the absence of deadlock (StopCanReturn); publication of the runtime descriptor by initialize; credential refresh except for its failure; containers except that their log stream ends.
- Registry HTTP calls, credential loading, AGENT.md, WORKSPACE.md and MOUNTS.md rendering, container and host configuration, port reservation and log files.
