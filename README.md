# ditastore `pull-topics`: resolution of `m2:` references

This project models the reference-resolution core of the `pull-topics` mojo
(`DitamapMojo`) of the ditastore Maven plugin, and proves properties of it in
Dafny. The mojo reads a DITA map and visits its `topicref` elements in order.
It resolves each selected `href` attribute to a local file, using
maven-dependency-plugin 2.0, and rewrites the attribute in place. It then
writes the map to the output directory.

Resolving one `href` (`resolveMapDependency`) takes these steps:

1. It splits the value on `:` with Java's `String.split`, which drops trailing
   empty tokens.
2. It reads tokens 1 to 3 as groupId, artifactId and version.
3. It picks classifier, type and an internal path by a branch on the token
   count.
4. Type `dita` asks the plugin to `copy` the artifact into
   `<ditaTopicsDir>/groupId`. Any other type asks it to `unpack` the artifact
   into `<ditaTopicsDir>`.
5. It checks that the result file exists, and sets the attribute to the file's
   absolute path.

The model follows the code as written, quirks included:

- The branch tests `length < 5` and then reads `locationPaths[4]`. So every
  reference of four tokens or fewer throws, and every reference of five or
  more gets an empty classifier, an empty type and no path.
- The read of index 7 sits under a `length >= 7` guard inside that `< 5`
  branch, so it is unreachable.
- A null path reaches `new File(ditaTopicsDir, null)` and throws a
  NullPointerException.
- The copy directory is the literal name `groupId`, not the group's value.
- The loop's filter is `"m2:".startsWith(href)`, with receiver and argument
  reversed. Only `""`, `"m"`, `"m2"` and `"m2:"` are selected, and each of
  them splits into one token and throws at `locationPaths[1]`.

Two of these read as slips rather than design:

- The filter at DitamapMojo.java:230 was evidently meant as
  `href.startsWith("m2:")`, selecting the references of the `m2:` scheme.
- The test at line 152 was evidently meant as `length >= 5`, so that the
  branch reading `locationPaths[4]` (and 5, and a path) is the one taken when
  those tokens exist.

The source states no intent beyond "Pull topics in the m2 repository"
(line 59), so the model follows the code. The lemmas `SelectedIff`,
`ParseByTokenCount`, `GuideExampleIsUnpacked`, `EveryHrefFails` and
`ExecuteAsWritten` state what the code does. On a
real document, as written, a run either writes the map unchanged or fails.

The state the mojo changes is modelled in the class `Mojo.DitamapMojo` and in
the functions of `Pipeline`:

- the set of absolute paths that exist;
- the list of plugin goals requested;
- the maps written.

The document is an array of `Option<string>`, one entry per `topicref` in
document order. `None` stands for a `topicref` without `href`. The dependency
plugin is an oracle `fetch` from a request to the files it creates, or to
failure. Whether the XML transformer manages to write is the parameter
`writable`. Paths are Unix-style strings, and `workingDir` resolves relative
ones.

Modules:

- `JavaStrings`: `String.split`, `startsWith`, `Boolean.toString`.
- `JavaFiles`: `new File(parent, child)`, `getAbsolutePath`, `getName`.
- `MavenDependency`: the plugin boundary.
- `Failures`: the exceptions.
- `Coordinates`: the parse.
- `Resolution`: strategy and paths.
- `Pipeline`: one resolution, the loop and `execute`, as functions of the
  state.
- `Mojo`: the class whose methods are proved against those functions.
- `Wrappers`: `Option` and `Result`.

All paths below are relative to the repository root; `DitamapMojo.java` is
`src/main/java/jp/pizzafactory/ditastore/plugin/DitamapMojo.java`.

## Model

| member | source | states |
|---|---|---|
| JavaStrings.SplitAll | src/main/java/jp/pizzafactory/ditastore/plugin/DitamapMojo.java:143 | the raw token list has one more token than there are separators, no token contains the separator, and joining the tokens with the separator gives the string back |
| JavaStrings.DropTrailingEmpty | src/main/java/jp/pizzafactory/ditastore/plugin/DitamapMojo.java:143 | the result is a prefix of the tokens, only empty tokens are dropped, and the result ends with a non-empty token or is empty |
| JavaStrings.Split | src/main/java/jp/pizzafactory/ditastore/plugin/DitamapMojo.java:143 | `split(":")` gives `[s]` when `s` has no colon; otherwise it is SplitAll with the trailing empty tokens dropped, ending with a non-empty token or empty; no token contains a colon |
| JavaStrings.SplitAllJoin | src/main/java/jp/pizzafactory/ditastore/plugin/DitamapMojo.java:143 | SplitAll undoes Join on separator-free tokens |
| JavaStrings.SplitJoin | src/main/java/jp/pizzafactory/ditastore/plugin/DitamapMojo.java:143 | `split` gives back two or more separator-free tokens whose last one is non-empty |
| JavaStrings.SplitAllToken | src/main/java/jp/pizzafactory/ditastore/plugin/DitamapMojo.java:143 | a token without the separator splits into itself |
| JavaStrings.SplitAllCons | src/main/java/jp/pizzafactory/ditastore/plugin/DitamapMojo.java:143 | a token followed by the separator contributes exactly that token |
| JavaStrings.CountPositive | src/main/java/jp/pizzafactory/ditastore/plugin/DitamapMojo.java:143 | a positive separator count means the separator occurs |
| JavaStrings.JoinExtendFirst | src/main/java/jp/pizzafactory/ditastore/plugin/DitamapMojo.java:143 | prepending to the first token prepends to the joined string |
| JavaFiles.Absolute | src/main/java/jp/pizzafactory/ditastore/plugin/DitamapMojo.java:193-194 | an absolute path stays as it is; under an absolute working directory every result is absolute |
| JavaFiles.BaseNameShape | src/main/java/jp/pizzafactory/ditastore/plugin/DitamapMojo.java:241 | `getName()` has no separator, ends the path, and is preceded by a separator when it is not the whole path |
| JavaFiles.BaseNameOfChild | src/main/java/jp/pizzafactory/ditastore/plugin/DitamapMojo.java:241 | the name of `new File(dir, name)` is `name` |
| Failures.FileNotFoundMessage | src/main/java/jp/pizzafactory/ditastore/plugin/DitamapMojo.java:217-219 | the message opens with "File not found: [" followed by the absolute result path, then the mismatched "[ for [", and ends with the href followed by "]." |
| Coordinates.ParseByTokenCount | src/main/java/jp/pizzafactory/ditastore/plugin/DitamapMojo.java:142-169 | one, two, three or four tokens throw at index 1, 2, 3 or 4 respectively (zero tokens at 1); five or more give tokens 1 to 3 with empty classifier and type and no path |
| Coordinates.ParsedHasNoTypeOrPath | src/main/java/jp/pizzafactory/ditastore/plugin/DitamapMojo.java:152-169 | a successful parse always has five or more tokens, an empty classifier, an empty type and no path, so index 7 is never read |
| Coordinates.ParseSucceedsIff | src/main/java/jp/pizzafactory/ditastore/plugin/DitamapMojo.java:143-169 | the parse succeeds exactly when the href splits into five or more tokens |
| Coordinates.ParseJoined | src/main/java/jp/pizzafactory/ditastore/plugin/DitamapMojo.java:143-148 | a reference of five or more colon-free tokens, the last non-empty, parses to tokens 1 to 3, whatever token 0 and tokens 4 onwards are |
| Coordinates.GuideExample | src/main/java/jp/pizzafactory/ditastore/plugin/DitamapMojo.java:152-169 | `m2:com.acme:guide:1.0:dita` (GuideReference, spelled out by GuideReferenceText) parses to com.acme, guide, 1.0 with an empty type |
| Coordinates.FourTokenExample | src/main/java/jp/pizzafactory/ditastore/plugin/DitamapMojo.java:152-153 | `m2:com.acme:guide:1.0` throws at index 4 |
| Resolution.DitaIsCopy | src/main/java/jp/pizzafactory/ditastore/plugin/DitamapMojo.java:171-199 | type "dita" asks for goal "copy" of the artifactItem made of the coordinate's groupId, artifactId, version and classifier with type "dita", into the absolute `<topicsDir>/groupId` under the name `<artifactId>.dita`, after creating that directory; the result is `<topicsDir>/groupId/<artifactId>.dita` |
| Resolution.CopyPathText | src/main/java/jp/pizzafactory/ditastore/plugin/DitamapMojo.java:182-199 | the copy directory is `<topicsDir>/groupId` and its result `<topicsDir>/groupId/<artifactId>.dita`, spelled out |
| Resolution.CopyDestinationIgnoresGroup | src/main/java/jp/pizzafactory/ditastore/plugin/DitamapMojo.java:182-199 | two "dita" coordinates with the same artifactId get the same directory and result file, whatever their groups |
| Resolution.OtherTypeIsUnpack | src/main/java/jp/pizzafactory/ditastore/plugin/DitamapMojo.java:200-213 | any other type asks for goal "unpack" of the artifactItem made of the coordinate's groupId, artifactId, version, classifier and type, into the absolute topics directory; creates no directory, and has result `<topicsDir>/<path>`, or none without a path |
| Resolution.OverwriteElementFollowsFlag | src/main/java/jp/pizzafactory/ditastore/plugin/DitamapMojo.java:176-177 | the overwrite element is exactly "true" or "false", "true" exactly when isOverwrite is set |
| Resolution.ResultBelowTopicsDir | src/main/java/jp/pizzafactory/ditastore/plugin/DitamapMojo.java:182-213 | every result file starts with `<topicsDir>/` |
| Resolution.CopyResultName | src/main/java/jp/pizzafactory/ditastore/plugin/DitamapMojo.java:187-199 | when the artifactId contains no `/`, the file name of a copy's result is `<artifactId>.dita` |
| Pipeline.SelectedIff | src/main/java/jp/pizzafactory/ditastore/plugin/DitamapMojo.java:230 | the filter passes exactly `""`, `"m"`, `"m2"` and `"m2:"` |
| Pipeline.SelectedSplitsToOneToken | src/main/java/jp/pizzafactory/ditastore/plugin/DitamapMojo.java:143-146 | every href the filter passes splits into a single token |
| Pipeline.SelectedHrefFailsAtIndexOne | src/main/java/jp/pizzafactory/ditastore/plugin/DitamapMojo.java:146 | resolving a selected href throws at index 1 and leaves the state unchanged |
| Pipeline.ParseFailureRequestsNothing | src/main/java/jp/pizzafactory/ditastore/plugin/DitamapMojo.java:143-153 | a reference of four tokens or fewer throws at the first missing index among 1 to 4, having requested and created nothing |
| Pipeline.ResolveCoordinateOutcome | src/main/java/jp/pizzafactory/ditastore/plugin/DitamapMojo.java:171-222 | resolving a coordinate requests exactly its goal, writes no map and removes no file; a failed goal throws and adds only the mkdirs directory; a goal that ran adds exactly the mkdirs directory and its files; a missing path throws a NullPointerException; otherwise it succeeds exactly when the result file exists, the new value is its absolute path, and a missing result file throws `FileNotFound` with the "File not found" message for that path and href |
| Pipeline.DitaResolvesToCopiedFile | src/main/java/jp/pizzafactory/ditastore/plugin/DitamapMojo.java:179-222 | a "dita" coordinate that resolves sets the attribute to the absolute `<topicsDir>/groupId/<artifactId>.dita` |
| Pipeline.UnpackWithoutPathFailsAfterRequest | src/main/java/jp/pizzafactory/ditastore/plugin/DitamapMojo.java:200-213 | a non-"dita" coordinate without a path fails, either in the goal or with a NullPointerException, after its `unpack` was requested |
| Pipeline.EveryHrefFails | src/main/java/jp/pizzafactory/ditastore/plugin/DitamapMojo.java:141-222 | no href resolves: four tokens or fewer throw an index error before any effect; five or more request an `unpack` of tokens 1 to 3 with empty classifier and type into the topics directory, then throw |
| Pipeline.GuideExampleIsUnpacked | src/main/java/jp/pizzafactory/ditastore/plugin/DitamapMojo.java:141-213 | `m2:com.acme:guide:1.0:dita` requests an `unpack` of com.acme:guide:1.0 with empty type, then throws |
| Pipeline.HaltShape | src/main/java/jp/pizzafactory/ditastore/plugin/DitamapMojo.java:225-234 | for any per-href step, a pass stops at the first failure or at the end; it keeps the nodes before the start and from the stop on; every node it passed has an href; only selected nodes change; it stops only at a node without href or a selected one |
| Pipeline.LaterNodesNotVisited | src/main/java/jp/pizzafactory/ditastore/plugin/DitamapMojo.java:227-233 | for any per-href step, after the first failure the later nodes are never looked at: any content there gives the same failure, index and state |
| Pipeline.NothingSelectedIsUnchanged | src/main/java/jp/pizzafactory/ditastore/plugin/DitamapMojo.java:227-233 | a map in which every topicref has an href and none is selected passes with nodes and state unchanged |
| Pipeline.PassNeverRewrites | src/main/java/jp/pizzafactory/ditastore/plugin/DitamapMojo.java:225-234 | as written, the pass changes no node and no state; it succeeds exactly when every node has an unselected href, and otherwise stops at the first node that has no href (NullPointerException) or is selected (index 1) |
| Pipeline.ExecuteWritesOnlyOnSuccess | src/main/java/jp/pizzafactory/ditastore/plugin/DitamapMojo.java:236-263 | a map is written exactly when the pass succeeded and the transformer can write; a failed pass stops everything; the map goes to `<outputDirectory>/<name of the input map>` and holds the values the pass left |
| Pipeline.OutputKeepsMapName | src/main/java/jp/pizzafactory/ditastore/plugin/DitamapMojo.java:241 | the output file has the input map's name |
| Pipeline.ExecuteAsWritten | src/main/java/jp/pizzafactory/ditastore/plugin/DitamapMojo.java:225-263 | as written, `execute` requests no goal and writes the map unchanged exactly when every topicref has an unselected href and the transformer can write |
| Mojo.DitamapMojo.constructor | src/main/java/jp/pizzafactory/ditastore/plugin/DitamapMojo.java:66-85 | the mojo holds its parameters and the given file system, with no goal requested and no map written |
| Mojo.DitamapMojo.MakeDirs | src/main/java/jp/pizzafactory/ditastore/plugin/DitamapMojo.java:183-185 | afterwards the directory exists; nothing else changes |
| Mojo.DitamapMojo.ExecuteMojo | src/main/java/jp/pizzafactory/ditastore/plugin/DitamapMojo.java:188-197 | the request is appended to the goal log; it succeeds exactly when the oracle produces files, which then exist |
| Mojo.DitamapMojo.FetchAndRewrite | src/main/java/jp/pizzafactory/ditastore/plugin/DitamapMojo.java:171-222 | the new state, the exception and the node array are those of ResolveCoordinate; only node `i` changes, and only on success |
| Mojo.DitamapMojo.ResolveMapDependency | src/main/java/jp/pizzafactory/ditastore/plugin/DitamapMojo.java:141-223 | the new state, the exception and the node array are those of ResolveHref on node `i`'s value |
| Mojo.DitamapMojo.ResolveHrefs | src/main/java/jp/pizzafactory/ditastore/plugin/DitamapMojo.java:225-234 | the loop's exception, final nodes and state are those of the pass ResolveHrefsFrom from index 0 |
| Mojo.DitamapMojo.PrepareOutputDitamap | src/main/java/jp/pizzafactory/ditastore/plugin/DitamapMojo.java:236-242 | the output directory exists afterwards, and the file is `<outputDirectory>/<name of the input map>` |
| Mojo.DitamapMojo.OutputDitaMap | src/main/java/jp/pizzafactory/ditastore/plugin/DitamapMojo.java:244-256 | the exception and new state are those of WriteOutput: the directory is created, then the document is written unless the transformer fails |
| Mojo.DitamapMojo.Execute | src/main/java/jp/pizzafactory/ditastore/plugin/DitamapMojo.java:259-263 | the exception, final nodes and state are those of ExecuteSpec: resolve, then write unless resolving threw |

## Left out

- Loading the map (`getDitaMapDocument`, DitamapMojo.java:102-117) and the XPath query `//topicref` (127-139) are not modelled, because they are JAXP library calls. The document is given as the list of `href` values in document order, and the failure of either call is not modelled.
- The XML serialisation in `outputDitaMap` (244-256) is a foreign library. Whether it succeeds is the parameter `writable`, and what it writes is recorded as the output path plus the list of `href` values.
- Maven's `executeMojo` (188-197, 203-211) is an external build-tool call. It is an oracle `fetch` from the request to the files it creates, or to failure. The oracle depends on the request alone, not on what already exists. The `MavenProject`, `MavenSession` and `BuildPluginManager` components are left out.
- `mkdirs` and `exists` are membership and insertion in a set of absolute paths. Parent directories, relative-versus-absolute aliasing of the same file, and `mkdirs` failing are not modelled.
- `new File(parent, child)` and `getAbsolutePath` join with `/` and do not normalise: `Child("/", "a")` is `"//a"` where Java gives `"/a"`, and a trailing `/` is kept. Windows paths and `File` separator handling are not modelled either.
- The plugin coordinates `org.apache.maven.plugins:maven-dependency-plugin:2.0` (171-172) are the same for every request, so a request records only its goal and configuration.
- The Java `assert` statements (144, 180, 201) are not evaluated, as with assertions disabled at run time.
- Annotations, parameter defaults, injection and logging are not modelled: they are configuration of the Maven runtime, not behaviour of the mojo.
- The message texts of the ArrayIndexOutOfBounds, NullPointer and plugin exceptions are not modelled: they come from the Java runtime and Maven. Only "File not found" and the output failure are distinguished by their own text or constructor.
- Mojo.DitamapMojo.MakeDirs: states only that the directory exists afterwards, not that `mkdirs` is skipped when it already exists; in the set model the two are the same.
