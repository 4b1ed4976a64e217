# Copy stage and BFF client generation — a Dafny model

This project models two pieces of the Modern.js tool chain.

The first is the **copy stage of the module-tools builder** (`copyTask`,
`runPatterns`, `watchCopyFiles`). A build configuration lists copy patterns
(`from`, optional `to`, `context` and `globOptions`). For each pattern the
stage:

- resolves the pattern's context and the absolute source;
- stats the source to classify it as a directory, a single file or a glob;
- builds the glob query and the matcher options. The code means `dot` to
  default to true for directory and file sources, but as written that
  default reaches the matcher only when the pattern carries `globOptions`
  (see "## Findings"); the model uses the intended options;
- maps every matched regular file to a destination under the output
  directory and copies it there.

When watching, it records each source-to-destination pair in a module-level
watch map. It then registers one watcher over the recorded sources. That
watcher copies a changed source again, or removes its copy when the source is
unlinked.

The second is the **BFF client stub generator** (`generateClient`). It picks
the module the generated code imports `createRequest` from. It then writes one
`export … createRequest('<route>', '<METHOD>', <port>, '<decider>' …)` line per
handler of an API module, after an import header.

Files:

- `wrappers.dfy` holds `Option`.
- `paths.dfy` holds POSIX paths as an absolute flag plus a segment list:
  `normalize`, `join`, `resolve`, `relative`, `dirname` and `extname`.
- `copy_resolve.dfy` holds the pure decisions of `runPatterns`: context,
  classification, glob query, matcher options and destination.
- `copy_stage.dfy` holds the copy stage's state as the class `Stage`. Its
  fields are the output tree (a map from path to content), the watch map and
  the registered watchers. Its methods are proved against fold functions
  (`CopyAll`, `RecordAll`, `TaskMappings`) whose properties are lemmas.
- `generate_client.dfy` holds `generateClient`.

The file system, the glob matcher and `require.resolve` are inputs. A stat
result and a glob result come with each pattern (`Probe`). The resolver is a
partial map from request to file path. The router's handler list is an
optional value.

## Model

| member | source | states |
|---|---|---|
| Paths.Normalize | packages/solutions/module-tools/src/builder/copy.ts:25 | `path.normalize` yields only non-empty, non-"." segments without separators; the result is absolute exactly when the string starts with "/" |
| Paths.NormalizeRender | packages/solutions/module-tools/src/builder/copy.ts:25 | normalising the string form of a normalised path gives that path back |
| Paths.NormalizeIdempotent | packages/solutions/module-tools/src/builder/copy.ts:116-118 | normalising twice is normalising once |
| Paths.SplitJoinPieces | packages/solutions/module-tools/src/builder/copy.ts:116-118 | the pieces between separators, glued back with separators, are the original string, so splitting loses nothing |
| Paths.SplitSep | packages/solutions/module-tools/src/builder/copy.ts:116-118 | a separator between two strings splits exactly there |
| Paths.KeepAppend | packages/solutions/module-tools/src/builder/copy.ts:116-118 | dropping empty and "." pieces works piece by piece |
| Paths.NormalizeSep | packages/solutions/module-tools/src/builder/copy.ts:116-118 | normalising `a/b` gives `a`'s segments followed by `b`'s; it is absolute exactly when `a` is empty or absolute |
| Paths.NormalizeExample | packages/solutions/module-tools/src/builder/copy.ts:116-118 | `a//./b` normalises to the segments `a`, `b`: repeated separators and "." disappear |
| Paths.Join | packages/solutions/module-tools/src/builder/copy.ts:33 | `path.join` keeps the first path's absoluteness and its segments are the first path's followed by the second's; valid inputs give a valid result |
| Paths.Resolve | packages/solutions/module-tools/src/builder/copy.ts:41 | an absolute path resolves to itself; a relative one is appended to the base |
| Paths.Dirname | packages/solutions/module-tools/src/builder/copy.ts:81 | `path.dirname` drops exactly the last segment; the root and "." are their own dirname |
| Paths.Relative | packages/solutions/module-tools/src/builder/copy.ts:122-125 | `path.relative` is a relative path; for a path under the directory it is the rest of the path's segments; otherwise it starts with ".." |
| Paths.JoinRelative | packages/solutions/module-tools/src/builder/copy.ts:121-126 | joining a directory with a path made relative to it restores the path |
| Paths.RelativeToDirname | packages/solutions/module-tools/src/builder/copy.ts:121-124 | relative to its own directory, a path is its last segment |
| Paths.Extension | packages/solutions/module-tools/src/builder/copy.ts:119-120 | `extname` is empty exactly for a name that is empty, has no dot after its first character, or is ".."; otherwise it is the suffix of the name that starts at its last dot |
| Paths.Extname | packages/solutions/module-tools/src/builder/copy.ts:119-120 | the extension of a path is empty for a path with no segments; otherwise it is empty exactly when its last segment has none, and else it starts with '.' and ends the last segment |
| CopyResolve.ResolveContext | packages/solutions/module-tools/src/builder/copy.ts:30-36 | no context gives the default; an absolute context is kept; a relative one lands under the application directory |
| CopyResolve.AbsoluteFrom | packages/solutions/module-tools/src/builder/copy.ts:38-43 | an absolute `from` is kept; a relative one lands under the context with its own segments after it |
| CopyResolve.Classify | packages/solutions/module-tools/src/builder/copy.ts:52-63 | `dir` exactly for a directory, `file` exactly for a regular file, `glob` for anything else and for a failed stat |
| CopyResolve.MatcherOptionsAsWritten | packages/solutions/module-tools/src/builder/copy.ts:76-78 | as written, a pattern without `globOptions` passes no `dot` at all, for every source kind |
| CopyResolve.MatcherOptionsFor | packages/solutions/module-tools/src/builder/copy.ts:102-107 | `dot` is true for dir and file sources unless the pattern sets it; an explicit `dot` is kept; symbolic links are followed unless the pattern turns that off; `cwd` is the context |
| CopyResolve.DotDefaultLostWithoutGlobOptions | packages/solutions/module-tools/src/builder/copy.ts:84-86 | for a dir or file source with no `globOptions`, the code as written passes no `dot` where the intended options pass true |
| CopyResolve.AsWrittenAgreesWithGlobOptions | packages/solutions/module-tools/src/builder/copy.ts:24 | when the pattern does carry `globOptions`, the written and the intended matcher options coincide |
| CopyResolve.ResolvePattern | packages/solutions/module-tools/src/builder/copy.ts:65-100 | a directory source becomes the context and is queried for everything under it; a file source is queried exactly, with its directory as context; a glob keeps the pattern context and its `from` text, under the context when relative |
| CopyResolve.FileContextHoldsSource | packages/solutions/module-tools/src/builder/copy.ts:81 | for a file source the new context is the source's parent, one segment shorter |
| CopyResolve.DirStyleMeaning | packages/solutions/module-tools/src/builder/copy.ts:119-120 | `to` is dir-style exactly when it ends with the separator, names no segment, or its last segment has no extension |
| CopyResolve.UnsetToIsDirStyle | packages/solutions/module-tools/src/builder/copy.ts:116-119 | an unset `to` normalises to "." and is dir-style |
| CopyResolve.Destination | packages/solutions/module-tools/src/builder/copy.ts:114-131 | a dir-style `to` puts the source's path relative to the context under `to`; a file-style `to` is the destination itself; relative results go under `outDir`, so an absolute `outDir` gives an absolute destination |
| CopyResolve.MapEntry | packages/solutions/module-tools/src/builder/copy.ts:114-115 | a match's source is its path resolved against the context, and its destination is the one above |
| CopyResolve.FileStyleCollapses | packages/solutions/module-tools/src/builder/copy.ts:126 | with a file-style `to` every match of a pattern goes to the same destination |
| CopyResolve.ResolveJoinCancel | packages/solutions/module-tools/src/builder/copy.ts:126-130 | equal destinations built as `to` plus a relative path come from equal relative paths |
| CopyResolve.DirStyleInjective | packages/solutions/module-tools/src/builder/copy.ts:121-131 | with a dir-style `to`, two different sources under the context never share a destination |
| CopyResolve.DirPatternMirrorsTree | packages/solutions/module-tools/src/builder/copy.ts:67-75 | a directory copied without `to` is mirrored under `outDir` at the same relative paths |
| CopyResolve.FilePatternDestination | packages/solutions/module-tools/src/builder/copy.ts:79-90 | a single file keeps its own name under a dir-style `to`, or is written to a file-style `to` exactly |
| CopyStage.Mappings | packages/solutions/module-tools/src/builder/copy.ts:109-112 | at most one mapping per match (the exact correspondence is the next row) |
| CopyStage.MappingsOfFiles | packages/solutions/module-tools/src/builder/copy.ts:109-112 | every copy comes from a matched regular file, and every matched regular file is copied |
| CopyStage.NonFilesIgnored | packages/solutions/module-tools/src/builder/copy.ts:110-112 | a match that is not a regular file adds nothing |
| CopyStage.PatternMappings | packages/solutions/module-tools/src/builder/copy.ts:102-112 | a rejected glob copies nothing; a matched glob gives at most one mapping per match |
| CopyStage.CopyOne | packages/solutions/module-tools/src/builder/copy.ts:137-141 | the destination takes the source's content and no other path changes |
| CopyStage.CopyAll | packages/solutions/module-tools/src/builder/copy.ts:109-141 | copying never removes a path from the tree |
| CopyStage.RecordAll | packages/solutions/module-tools/src/builder/copy.ts:133-135 | recording never removes a source from the watch map |
| CopyStage.CopyAllFrame | packages/solutions/module-tools/src/builder/copy.ts:109-141 | a path no mapping writes to is left as it was |
| CopyStage.CopyAllLastWriter | packages/solutions/module-tools/src/builder/copy.ts:109-141 | when no mapping writes onto a source, every destination holds what the last mapping onto it copied |
| CopyStage.LastWriteIsDestination | packages/solutions/module-tools/src/builder/copy.ts:137-141 | only destinations receive writes |
| CopyStage.LastWriteSources | packages/solutions/module-tools/src/builder/copy.ts:137-141 | what a run writes depends on the tree only at its sources |
| CopyStage.CopyAllIdempotent | packages/solutions/module-tools/src/builder/copy.ts:109-141 | copying the same mappings twice gives the tree one copy gives |
| CopyStage.CopyAllAppend | packages/solutions/module-tools/src/builder/copy.ts:109-141 | copying two batches is copying the first and then the second |
| CopyStage.RecordAllAppend | packages/solutions/module-tools/src/builder/copy.ts:133-135 | recording two batches is recording the first and then the second |
| CopyStage.RecordAllKeys | packages/solutions/module-tools/src/builder/copy.ts:133-135 | recording adds exactly the copied sources to the watch map and drops none |
| CopyStage.RecordAllLookup | packages/solutions/module-tools/src/builder/copy.ts:133-135 | a recorded source maps to the destination of its last copy |
| CopyStage.Dispatch | packages/solutions/module-tools/src/builder/copy.ts:157-178 | an untracked path changes nothing; `unlink` removes exactly the mapped destination; another change copies the source onto it and touches nothing else |
| CopyStage.WatchRoundTrip | packages/solutions/module-tools/src/builder/copy.ts:157-178 | after a run, editing a source and reporting it brings the new content to its destination, and reporting its removal deletes the destination |
| CopyStage.Concurrency | packages/solutions/module-tools/src/builder/copy.ts:194 | the configured concurrency, or 100 when it is unset or 0; never 0 |
| CopyStage.FirstError | packages/solutions/module-tools/src/builder/copy.ts:195-212 | no failure exactly when every glob succeeded; a reported failure is one of the patterns' errors |
| CopyStage.FirstErrorSnoc | packages/solutions/module-tools/src/builder/copy.ts:195-212 | a later failure never replaces an earlier one |
| CopyStage.TaskMappings | packages/solutions/module-tools/src/builder/copy.ts:196-207 | when every pattern's glob is rejected, the task copies nothing |
| CopyStage.TaskLogReports | packages/solutions/module-tools/src/builder/copy.ts:208-212 | nothing is logged exactly when every glob succeeded; otherwise the log is "copy error: " followed by one of the failures' messages |
| CopyStage.TaskIdempotent | packages/solutions/module-tools/src/builder/copy.ts:181-218 | running the task twice over unchanged sources leaves the tree one run leaves |
| CopyStage.Stage.WatchedPathHandled | packages/solutions/module-tools/src/builder/copy.ts:153-178 | a path a registered watcher watches is in the watch map, so an event on it is acted on: `unlink` removes its copy and a change copies it again |
| CopyStage.Stage.constructor | packages/solutions/module-tools/src/builder/copy.ts:8 | the watch map and the watcher list start empty |
| CopyStage.Stage.RunEntries | packages/solutions/module-tools/src/builder/copy.ts:109-142 | the tree becomes the fold of the pattern's copies; the watch map records them exactly when watching; the watchers are untouched |
| CopyStage.Stage.RunPattern | packages/solutions/module-tools/src/builder/copy.ts:10-143 | a rejected glob returns its error and changes nothing; otherwise the pattern's files are copied and recorded |
| CopyStage.Stage.WatchCopyFiles | packages/solutions/module-tools/src/builder/copy.ts:145-155 | one watcher over the sources the watch map holds now is added; nothing else changes |
| CopyStage.Stage.OnEvent | packages/solutions/module-tools/src/builder/copy.ts:157-178 | the tree changes as the watch handler says; the watch map is never changed |
| CopyStage.Stage.CopyTask | packages/solutions/module-tools/src/builder/copy.ts:181-218 | without patterns nothing happens; otherwise all patterns are copied in order, the first failure is logged as "copy error: …", and a watcher is registered exactly when watching |
| ClientGen.Upper | packages/server/bff-core/src/client/generateClient.ts:74 | `toUpperCase` keeps the length, maps each character, and leaves no lower-case ASCII letter |
| ClientGen.Lower | packages/server/bff-core/src/client/generateClient.ts:71 | `toLowerCase` keeps the length and leaves no upper-case ASCII letter |
| ClientGen.LowerIdempotent | packages/server/bff-core/src/client/generateClient.ts:71 | lowering a lowered name changes nothing |
| ClientGen.LowerIsDefault | packages/server/bff-core/src/client/generateClient.ts:71-73 | a name lowers to "default" exactly when it has seven letters, each the letter of "default" in either case |
| ClientGen.ReplaceBackslashes | packages/server/bff-core/src/client/generateClient.ts:41 | every backslash becomes "/", nothing else changes, and no backslash remains |
| ClientGen.ReplaceBackslashesConcat | packages/server/bff-core/src/client/generateClient.ts:48-51 | replacing after joining is joining after replacing |
| ClientGen.IntToString | packages/server/bff-core/src/client/generateClient.ts:78-79 | `String(port)` starts with a minus exactly for a negative port, and is otherwise digits |
| ClientGen.NatToStringValue | packages/server/bff-core/src/client/generateClient.ts:78-79 | the decimal digits of a natural number read back as that number |
| ClientGen.IntToStringValue | packages/server/bff-core/src/client/generateClient.ts:78-79 | the text of `String(port)` reads back as the port, after the minus sign for a negative one |
| ClientGen.PosixDirname | packages/server/bff-core/src/client/generateClient.ts:46 | `path.dirname` is never empty; it is "." or a prefix of the path; it is absolute exactly when the path is |
| ClientGen.TargetSuffix | packages/server/bff-core/src/client/generateClient.ts:40 | the suffix is empty exactly without a target, and otherwise is "/" followed by the target |
| ClientGen.DirnameOfChild | packages/server/bff-core/src/client/generateClient.ts:46 | the dirname of `dir/name` is `dir` |
| ClientGen.RequestCreator | packages/server/bff-core/src/client/generateClient.ts:38-52 | without a configured creator, the resolved default package with the target as sub-path, or a rejection when it cannot be resolved; otherwise the creator's directory when it resolves and the creator as written when not, with the target appended; never a backslash |
| ClientGen.ConfiguredCreatorUsesDirectory | packages/server/bff-core/src/client/generateClient.ts:44-51 | a configured creator that resolves to a file is replaced by that file's directory, followed by the target suffix |
| ClientGen.ExportStatement | packages/server/bff-core/src/client/generateClient.ts:70-73 | the export is `default` exactly when the name lowers to "default"; otherwise it is `var `, the name, then ` =` |
| ClientGen.PortExpression | packages/server/bff-core/src/client/generateClient.ts:77-86 | the port expression ends with `String(port)` and is longer by exactly the `process.env.PORT \|\| ` prefix for the "server" target and by nothing otherwise, so a non-server target gets the bare port |
| ClientGen.Decider | packages/server/bff-core/src/client/generateClient.ts:80 | the decider is the configured one when that is set, and `functionName` otherwise |
| ClientGen.FetchArgument | packages/server/bff-core/src/client/generateClient.ts:81 | the `, fetch` argument is empty exactly when no fetcher is set |
| ClientGen.HandlerLineShape | packages/server/bff-core/src/client/generateClient.ts:78-90 | each handler line starts with `export ` and ends with the closing `);` and its line break |
| ClientGen.ImportCode | packages/server/bff-core/src/client/generateClient.ts:94-95 | the header imports `createRequest` from the creator, and adds a `fetch` import exactly when a fetcher is set |
| ClientGen.LinesAppend | packages/server/bff-core/src/client/generateClient.ts:67-92 | the code for two handler lists is the code for the first followed by the code for the second |
| ClientGen.LinesAt | packages/server/bff-core/src/client/generateClient.ts:67-92 | each handler contributes exactly its own line, at its own position in handler order |
| ClientGen.DefaultExportIff | packages/server/bff-core/src/client/generateClient.ts:70-73 | a line is `export default createRequest(…` exactly when the handler's name is "default" in any case |
| ClientGen.ServerPortIff | packages/server/bff-core/src/client/generateClient.ts:77-91 | the port reads `process.env.PORT || …` exactly for the "server" target |
| ClientGen.FetchArgumentIff | packages/server/bff-core/src/client/generateClient.ts:80-89 | a line passes `, fetch` exactly when a fetcher is set |
| ClientGen.HandlersCode | packages/server/bff-core/src/client/generateClient.ts:67-92 | the loop produces the handler lines in handler order |
| ClientGen.GenerateClient | packages/server/bff-core/src/client/generateClient.ts:38-97 | rejects exactly when the default creator cannot be resolved; a missing handler list is the error "generate client error: Cannot require module <resourcePath>"; otherwise the import header, a blank line and the handler lines |

## Left out

- Glob matching itself (`globby`), `fastGlob.escapePath` and `normalize-path` are not modelled. The matcher's answer is an input, and escaping is a constructor of the query, so distinct literal paths give distinct queries.
- Real file-system I/O is not modelled, and neither is the choice between `fs.copySync` and `fs.copy`. The tree is a map from path to content, and a copy whose source is missing changes nothing.
- Concurrency is not modelled. `pMap` runs patterns and entries concurrently; the model runs them one after another in list order. The entry loop in `runPatterns` is not awaited, and `fs.remove` in the watch handler is not awaited. So in the source, copies and watch-map records can complete after `runPatterns` returns and in another order. A watcher registered before they complete sees fewer paths than the model does.
- CopyStage.Stage.CopyTask: when `pMap` stops on the first error, the patterns it has not yet started are skipped. This happens only with more patterns than the concurrency. The model runs every pattern and logs the first error.
- CopyStage.Concurrency: `pMap`'s own rejection of a negative or non-integer concurrency is not modelled. The source logs that rejection as a copy error.
- Paths: Node's collapsing of ".." segments, Windows separators, and resolving a relative base against the process's working directory are not modelled. Paths are POSIX, and the application, output and source directories are given already normalised. An absolute `context` is taken as its normalised form.
- ClientGen.PosixDirname: the source calls the platform's `path.dirname`; the model is the POSIX one, so the backslash replacement after it matters only for a resolved path that itself holds backslashes.
- CopyResolve.ResolvePattern: the model passes the intended matcher options (`MatcherOptionsFor`). As written, a dir or file pattern without `globOptions` passes no `dot`; that behaviour is `MatcherOptionsAsWritten`, and the two are related under "## Findings".
- Failing copies are not modelled. In the source a failing `fs.copy` inside the un-awaited `pMap` over the entries (copy.ts:109-141), or inside the watch callback (copy.ts:171-175), rejects a promise nobody awaits. It escapes `copyTask`'s `try`/`catch` as an unhandled rejection and is never logged as a copy error. In the model a copy with a missing source changes nothing.
- CopyResolve.DirStyle: `to.slice(-1) === path.sep` is applied to the normalised `to` in the source. The model looks at the raw text instead, because `normalize` keeps a trailing separator.
- The `?? appDirectory` and `?? defaultAbsContext` fallbacks are not modelled: the context is always set by then. Also not modelled: the source writes `dot` into the pattern's own `globOptions` object, so the change outlives the call.
- Glob options other than `dot` and `followSymbolicLinks` are not modelled.
- Logging (`logger`, `debug`, `chalk`) is not modelled, apart from the text of the task's error log.
- ClientGen.Upper and ClientGen.Lower cover ASCII letters only. Unicode case mapping is not modelled.
- The port is an integer. Non-integer ports and their `String` form are not modelled.
- ClientGen.IntToString: writes every integer in plain decimal. A JavaScript `number` is written in exponent form from 10^21 up (`String(1e21)` is "1e+21") and is exact only within the safe-integer range, so the model stands for `String(port)` only for ports of magnitude below 2^53.
- `new ApiRouter(…)` throwing is not modelled. Its handler lookup is an input, and `appDir`, `apiDir`, `lambdaDir` and `prefix` are only passed on to it.

## Findings

| source | as written | input that shows it | evidently intended | confidence | as-written member | corrected member |
|---|---|---|---|---|---|---|
| packages/solutions/module-tools/src/builder/copy.ts:24 | `globOptions = {}` defaults a fresh object. `dot = true` is then set on it for dir and file sources (l.76-78, l.84-86). The matcher options spread `targetPattern.globOptions \|\| {}` (l.102-107), not that object. | The pattern `{ from: "assets" }` with no `globOptions`, where `assets` is a directory holding `.env`. The matcher gets no `dot`, so `.env` is not matched or copied. | Dot files are matched for dir and file sources unless the pattern sets `dot`. This is what already happens when the pattern carries any `globOptions`. | not executed | CopyResolve.MatcherOptionsAsWritten (see CopyResolve.DotDefaultLostWithoutGlobOptions) | CopyResolve.MatcherOptionsFor |
