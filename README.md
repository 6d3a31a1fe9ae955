# RepoStructure code-graph engine, in Dafny

This project models the code-graph engine of the RepoStructure VS Code
extension, together with its plain-text tree printer, and proves properties of
the model. The engine reads a workspace and builds a graph of nodes and links
for a force-directed view. It has five parts:

- **The generic dependency analyzer.** `DependencyAnalyzer` in
  `dependency_analyzer.dfy` models `dependencyAnalyzer.ts`, and
  `DependencyAnalyzerJs` in `dependency_analyzer_js.dfy` models its
  JavaScript twin. The analyzer:
  - finds project roots by their manifest files;
  - sends each Node project to a framework analyzer by a priority list;
  - collects the source files, extracts import specifiers and resolves them
    against the files it read;
  - numbers the files densely and links them by index.
- **Four framework analyzers.** Each walks a directory convention and pushes
  role-tagged nodes and links into shared arrays. A `processedFiles` set
  guards the recursion. The modules are:
  - `NextjsAnalyzer`: the Next.js app router;
  - `ReactAnalyzer`: React pages and layouts;
  - `ReactAnalyzerJs`: the JavaScript build of the React analyzer;
  - `NodejsAnalyzer`: a Node backend, with endpoints taken from `.get('…')`-style calls;
  - `ReactNativeAnalyzer`: React Native screens, navigation and components.
- **`DependencyTree`.** It lives in module `Structures`: a tree with an id
  map, parent pointers, child maps and dependency sets, flattened by a
  depth-first walk.
- **`generateMinimalRepoStructure`.** Module `MinimalRepoStructure` models it
  as a pure function over a directory tree: filter, sort, the `├──`/`└──`
  markers and the prefix accumulation.
- **Shared modules.**
  - `FileSystem`: the filesystem is a finite map from absolute paths to
    directories (entry names in `readdir` order) and files.
  - `Paths`: Node's POSIX `path` functions over segment sequences.
  - `Strings`: the JavaScript string operations the code uses.
  - `Extractors`: the regular expressions, matched on statements.
  - `Graph`: the `GraphNode`/`GraphLink`/`GraphData` types of
    `src/codeGraph/types.ts` and the shared accumulator (a class);
  - `OrderedMaps`: JavaScript `Map` with its insertion order.
  - `LookupTables`: the `table[key] or default` idiom.
  - `Cancellation`: the cancellation token.
  - `FrameworkConfig`: the `frameworkDirs` names.

State is modelled as the source keeps it:
- the analyzers' instance maps and the shared `nodes`/`links`/`processedFiles`
  are fields of classes, updated by methods with `modifies` clauses;
- the walks are methods with loops and recursion, proved against
  specification functions or against the invariants they keep;
- the printer, the route rewriting and the extractors are functions.

A rejected promise is a `Result` error. A caught exception is the path the
code takes after its `catch`.

Three places where the code evidently misbehaves are listed under
"## Findings". For each, the model holds the code as written beside a
corrected definition, and the rest of the model uses the corrected one.

Where the code differs from what its comments or its design promise, the model
follows the code:
- the printer sorts files before folders (`b.isDirectory() ? -1 : 1`),
  although its comment says folders first;
- graph ids are not always unique: two endpoints of one path under two verbs
  share an id;
- links can name something that is not a node id: React Native navigation
  routes target screen names, and `DependencyTree` dependency links can
  target ids that are never emitted;
- `extractDependencies` in `dependencyAnalyzer.ts` concatenates its four lists
  without deduplication, so one `import … from './a'` gives two equal links;
- a Next.js app-router page's route is taken relative to the directory two
  levels above its own, and every pages-router page is routed `/`;
- the React analyzer's `pages` and `layouts` maps are never cleared between
  scans;
- a zero entry in a `table[type] || default` lookup falls to the default;
- several JavaScript twins fail in ways the TypeScript ones do not:
  - `getAllFiles` of `dependencyAnalyzer.js` never keeps a file, because
    `isValidFilePath` rejects every absolute path;
  - its `findProjectRoot` marker test always passes, because `fs.access` of
    `fs/promises` returns a promise rather than throwing;
  - `reactAnalyzer.js` calls `existsSync` on `fs/promises`, which throws for
    every path below the filesystem root.

## Model

| member | source | states |
|---|---|---|
| DependencyAnalyzer.MarkerType | src/codeGraph/dependencyAnalyzer.ts:22-26 | exactly the ten marker file names have a type, and `pom.xml` and `build.gradle` are exactly the names typed java |
| DependencyAnalyzer.MarkersShareOnlyJava | src/codeGraph/dependencyAnalyzer.ts:22-26 | two different marker names share a type only when it is java |
| DependencyAnalyzer.ConstructorFileMarks | src/codeGraph/dependencyAnalyzer.ts:38 | a file named `constructor` passes the `projectMarkers[entry.name]` test through the inherited `Object.prototype` key, yet has no marker type |
| DependencyAnalyzer.ProjectsBelow | src/codeGraph/dependencyAnalyzer.ts:29-42 | every project the walk reports is genuine: a marker file directly in its root, with the type that marker names |
| DependencyAnalyzer.ProjectsAt | src/codeGraph/dependencyAnalyzer.ts:32-40 | whatever one listing entry adds (a walked sub-directory's projects, or the project its marker file names) is genuine |
| DependencyAnalyzer.ProjectMap | src/codeGraph/dependencyAnalyzer.ts:50 | `new Map(projects.map(...))` is a well-formed insertion-ordered map |
| DependencyAnalyzer.ProjectMapLastWins | src/codeGraph/dependencyAnalyzer.ts:50 | a root is a key exactly when some detected project has it, and its entry is the last project seen with that root |
| DependencyAnalyzer.ScanDir | src/codeGraph/dependencyAnalyzer.ts:29-42 | a cancelled probe leaves the list unchanged; otherwise the result is the walk's projects after the accumulator, or the `readdir` error when `dir` is not a directory; the accumulator is kept as a prefix and whatever is added is genuine |
| DependencyAnalyzer.ScanEntries | src/codeGraph/dependencyAnalyzer.ts:32-41 | the listing loop appends, without cancellation, exactly `ProjectsIn` of the listing, and keeps the accumulator as a prefix |
| DependencyAnalyzer.DetectProjects | src/codeGraph/dependencyAnalyzer.ts:21-46 | `detectProjects` yields the projects below the root, or the `readdir` error of a root that is not a directory; an already cancelled token yields no projects |
| DependencyAnalyzer.FilesBelowCollected | src/codeGraph/dependencyAnalyzer.ts:142-155 | every file `getAllFiles` returns is a source file (name matches the extension pattern) strictly below the directory, reached through no ignored or framework entry |
| DependencyAnalyzer.GetAllFiles | src/codeGraph/dependencyAnalyzer.ts:142-155 | without cancellation the result is the full walk `FilesBelow`; a token already cancelled gives `[]`; whatever is returned is collected |
| DependencyAnalyzer.RequiresMembers | src/codeGraph/dependencyAnalyzer.ts:218-220 | `findRequires` finds exactly the non-empty quote-free specifiers of unspaced `require(…)` calls |
| DependencyAnalyzer.ImportsMembers | src/codeGraph/dependencyAnalyzer.ts:222-224 | `findImports` finds exactly the specifiers of imports with a quote-free clause and of side-effect and `@import` statements |
| DependencyAnalyzer.RelativeImportsMembers | src/codeGraph/dependencyAnalyzer.ts:170-173 | `findRelativeImports` finds exactly the `.`-led specifiers of `from`, `import` and `require` statements |
| DependencyAnalyzer.StyleImportsMembers | src/codeGraph/dependencyAnalyzer.ts:175-178 | the corrected `findStyleImports` finds exactly the non-empty quote-free specifiers of `@import` and `url(…)` statements |
| DependencyAnalyzer.StyleImportsAsWritten | src/codeGraph/dependencyAnalyzer.ts:175-178 | the as-written `findStyleImports` throws exactly when some `@import` or `url(…)` has an empty specifier, and otherwise finds the corrected list |
| DependencyAnalyzer.EmptyUrlThrows | src/codeGraph/dependencyAnalyzer.ts:177 | `url('')` makes the as-written finder throw, while the corrected finder and `extractDependencies` find nothing in it |
| DependencyAnalyzer.ExtractMembers | src/codeGraph/dependencyAnalyzer.ts:112-119 | a specifier is in `extractDependencies` exactly when one statement yields it to one of the four finders |
| DependencyAnalyzer.RelativeImportTwice | src/codeGraph/dependencyAnalyzer.ts:112-119 | `import x from './a'` is found by both `findImports` and `findRelativeImports`, so `extractDependencies` lists it twice |
| DependencyAnalyzer.DependencyCandidates | src/codeGraph/dependencyAnalyzer.ts:228-236 | the seven candidates in order: five extensions, the bare path sixth and `index.js` seventh |
| DependencyAnalyzer.FirstKnown | src/codeGraph/dependencyAnalyzer.ts:230-237 | the candidate returned is one of the candidates and has been read; no candidate has been read when none is returned |
| DependencyAnalyzer.FirstKnownEarliest | src/codeGraph/dependencyAnalyzer.ts:230-237 | the candidate returned is the earliest read one: every candidate before it is missing from `fileContents` |
| DependencyAnalyzer.ResolveDependency | src/codeGraph/dependencyAnalyzer.ts:226-240 | only a specifier starting with `.` resolves, and only to a file that has been read |
| DependencyAnalyzer.DependencyPrecedence | src/codeGraph/dependencyAnalyzer.ts:229-232 | when the i-th extension's path has been read, the result is the k-th extension's path for some k <= i and every earlier candidate is missing |
| DependencyAnalyzer.IndexLast | src/codeGraph/dependencyAnalyzer.ts:233-235 | `index.js` is only returned when all five extensions and the bare path are missing |
| DependencyAnalyzer.DependenciesOf | src/codeGraph/dependencyAnalyzer.ts:97-100 | each recorded dependency is a file that was read and is not claimed by a specialised graph |
| DependencyAnalyzer.NearestRoot | src/codeGraph/dependencyAnalyzer.ts:159-166 | the root found is a detected project root and a proper ancestor, and no directory between it and the file's directory is a root; with none found, no ancestor below the filesystem root is a root |
| DependencyAnalyzer.NodeSize | src/codeGraph/dependencyAnalyzer.ts:212-216 | the radius lies in [8, 20], and equals three times log2 of the line count when that value is already in range |
| DependencyAnalyzer.FileKind | src/codeGraph/dependencyAnalyzer.ts:191 | the node type is never empty: a file without an extension gets 'file' |
| DependencyAnalyzer.IndexNodes | src/codeGraph/dependencyAnalyzer.ts:185-196 | node i is the i-th recorded file, with id i |
| DependencyAnalyzer.IndexOf | src/codeGraph/dependencyAnalyzer.ts:186 | `fileIndex.get` answers the position of a recorded file, and nothing for any other path |
| DependencyAnalyzer.LinksFromInRange | src/codeGraph/dependencyAnalyzer.ts:201-206 | every link from one file joins two numbered files |
| DependencyAnalyzer.IndexLinksInRange | src/codeGraph/dependencyAnalyzer.ts:198-207 | every link of the generic graph joins two indices below the number of files |
| DependencyAnalyzer.IndexGraphClosed | src/codeGraph/dependencyAnalyzer.ts:180-210 | the generic graph is closed: every link's source and target are node ids |
| DependencyAnalyzer.RepeatedDependency | src/codeGraph/dependencyAnalyzer.ts:201-206 | a dependency listed twice gives two identical links, since links are not deduplicated |
| DependencyAnalyzer.StoredMembers | src/codeGraph/dependencyAnalyzer.ts:78-92 | a read is kept exactly when its file is listed, unclaimed, readable and not blank |
| DependencyAnalyzer.StoredStep | src/codeGraph/dependencyAnalyzer.ts:78-92 | `Promise.all` keeps the reads in file-list order: one more file appends its read |
| DependencyAnalyzer.Record | src/codeGraph/dependencyAnalyzer.ts:84 | `fileContents` gains exactly the keys of the files read |
| DependencyAnalyzer.RecordAppend | src/codeGraph/dependencyAnalyzer.ts:84 | recording two batches one after the other is recording their concatenation |
| DependencyAnalyzer.RecordLast | src/codeGraph/dependencyAnalyzer.ts:84 | the content stored for a file is the one read last |
| DependencyAnalyzer.RecordDeps | src/codeGraph/dependencyAnalyzer.ts:94-103 | the dependency map stays well formed and gains exactly the keys of the files handled |
| DependencyAnalyzer.RecordedStep | src/codeGraph/dependencyAnalyzer.ts:102 | setting the next file's entry extends the recorded map by one read |
| DependencyAnalyzer.RecordDepsGrown | src/codeGraph/dependencyAnalyzer.ts:102 | `dependencies.set` only appends keys: files already present keep their positions, and so their node numbers |
| DependencyAnalyzer.RecordDepsKnown | src/codeGraph/dependencyAnalyzer.ts:96-102 | every dependency recorded for a new file is a file that was read |
| DependencyAnalyzer.StrIdsAppend | src/codeGraph/dependencyAnalyzer.ts:72 | the claimed files of concatenated graphs are the union of each graph's string ids |
| DependencyAnalyzer.RanEach | src/codeGraph/dependencyAnalyzer.ts:56-75 | runs recorded one project at a time: the j-th run answers the j-th project, for every j |
| DependencyAnalyzer.RanSnoc | src/codeGraph/dependencyAnalyzer.ts:56-75 | the next project's run extends the runs, and its graph's nodes and links are appended to theirs |
| DependencyAnalyzer.ChooseAnalyzerSpec | src/codeGraph/dependencyAnalyzer.ts:60-68 | Express wins, then Next.js, then React Native, each exactly under its condition, and React is chosen exactly when none of the three is a dependency |
| DependencyAnalyzer.DependencyAnalyzer.constructor | src/codeGraph/dependencyAnalyzer.ts:12-19 | the maps start empty and the analyzer owns a fresh React analyzer |
| DependencyAnalyzer.DependencyAnalyzer.FindProjectRoot | src/codeGraph/dependencyAnalyzer.ts:157-168 | a cached answer is returned unchanged; otherwise the nearest detected root (which is cached) or, when there is none, the file's directory (which is not cached) |
| DependencyAnalyzer.DependencyAnalyzer.ResolveDependencyPath | src/codeGraph/dependencyAnalyzer.ts:226-240 | the extension loop with its `index.js` check after the bare path returns the resolution function's answer |
| DependencyAnalyzer.DependencyAnalyzer.ReadFiles | src/codeGraph/dependencyAnalyzer.ts:78-92 | the kept reads are `Stored` for the files probed before cancellation, which is all of them when the token is never signalled and none when it already was; `fileContents` records exactly them |
| DependencyAnalyzer.DependencyAnalyzer.ReadOne | src/codeGraph/dependencyAnalyzer.ts:79-89 | one file is kept exactly when unclaimed, readable and not blank, and is then recorded |
| DependencyAnalyzer.DependencyAnalyzer.ComputeDependencies | src/codeGraph/dependencyAnalyzer.ts:94-103 | the loop records the entries of the first `done` reads, all of them when the token is never signalled and none when it already was |
| DependencyAnalyzer.DependencyAnalyzer.ComputeOne | src/codeGraph/dependencyAnalyzer.ts:95-102 | one pass sets the file's entry (its specifiers resolved in order, unresolved and claimed ones dropped, repeats kept) and changes no other entry |
| DependencyAnalyzer.DependencyAnalyzer.FormatDependencyGraph | src/codeGraph/dependencyAnalyzer.ts:180-210 | the output is the numbered graph of `dependencies` |
| DependencyAnalyzer.DependencyAnalyzer.AnalyzeProjects | src/codeGraph/dependencyAnalyzer.ts:56-75 | unless cancelled, run j answers project j (a Node project by the analyzer its package.json names, a rejection giving no graph; any other project no graph), and the nodes and links are those runs' graphs concatenated in project order; claimed files are the string ids of those nodes; no Node project gives none; a never-signalled token does not cancel, an already signalled one cancels exactly when there is a project, and a cancel gives no nodes |
| DependencyAnalyzer.DependencyAnalyzer.RunProject | src/codeGraph/dependencyAnalyzer.ts:57-74 | one project of the loop: its run is recorded and its graph, if any, appended; a project that is not Node adds nothing |
| DependencyAnalyzer.DependencyAnalyzer.RunAnalyzer | src/codeGraph/dependencyAnalyzer.ts:60-69 | the graph is the answer of the analyzer `ChooseAnalyzer` names (Node, Next.js, React Native, else React), `None` exactly as that analyzer's rejection, with the React analyzer's pages and layouts after it |
| DependencyAnalyzer.DependencyAnalyzer.ReadTree | src/codeGraph/dependencyAnalyzer.ts:77-92 | the kept reads are `Stored` of the full walk without cancellation and none once cancelled, and `fileContents` records them |
| DependencyAnalyzer.DependencyAnalyzer.AnalyzeFiles | src/codeGraph/dependencyAnalyzer.ts:77-105 | without cancellation the contents and dependency maps record exactly the stored reads of the walk; the dependency map only grows; the graph is its numbering |
| DependencyAnalyzer.DependencyAnalyzer.ReadAndRecord | src/codeGraph/dependencyAnalyzer.ts:76-103 | without cancellation the contents and dependency maps record exactly the stored reads of the walk; an already signalled token changes neither map; the dependency map only grows |
| DependencyAnalyzer.DependencyAnalyzer.AnalyzeDependencies | src/codeGraph/dependencyAnalyzer.ts:48-110 | a root that cannot be listed rejects; a cancelled project loop returns the empty graph; otherwise the answer is the generic graph's nodes and links followed by the runs' graphs in project order, run j answering project j; without cancellation it succeeds exactly on a directory, `projects` is the map of the detected projects and the two maps record the stored reads of the walk; a token signalled beforehand finds no projects and returns the graph of the earlier maps; the dependency map only grows |
| DependencyAnalyzer.DependencyAnalyzer.AnalyzeDetected | src/codeGraph/dependencyAnalyzer.ts:50-109 | after detection: a cancel gives the empty graph; otherwise the runs answer the projects in order and the graph is the generic one followed by theirs; without cancellation the maps record the walk's stored reads |
| DependencyAnalyzer.DependencyAnalyzer.AnalyzeRemaining | src/codeGraph/dependencyAnalyzer.ts:76-109 | the generic graph of the files no project claimed, followed by the given project nodes and links; without cancellation the maps record the walk's stored reads |
| DependencyAnalyzer.NumberFiles | src/codeGraph/dependencyAnalyzer.ts:185-196 | the first `forEach` builds `IndexNodes`, and `fileIndex` agrees with `IndexOf` on every path |
| DependencyAnalyzer.AllLinks | src/codeGraph/dependencyAnalyzer.ts:198-207 | the second `forEach` builds `IndexLinks` |
| DependencyAnalyzer.LinksOf | src/codeGraph/dependencyAnalyzer.ts:201-206 | the inner loop builds `LinksFrom` for one file |
| DependencyAnalyzerJs.ProjectsBelow | src/codeGraph/dependencyAnalyzer.js:37-57 | every project this walk reports is genuine: a marker file directly in its root, of the type of that marker |
| DependencyAnalyzerJs.FindsTsProjects | src/codeGraph/dependencyAnalyzer.js:44-56 | this walk enters every directory, so every project the TypeScript scan finds is found here too |
| DependencyAnalyzerJs.NodeModulesScanned | src/codeGraph/dependencyAnalyzer.js:47-48 | a package.json inside `node_modules` is a project for this build and not for the TypeScript one |
| DependencyAnalyzerJs.ScanDir | src/codeGraph/dependencyAnalyzer.js:37-57 | a cancelled probe leaves the list unchanged; otherwise the walk's projects follow the accumulator, or the `readdir` error of a non-directory is returned; what is added is genuine |
| DependencyAnalyzerJs.ScanEntries | src/codeGraph/dependencyAnalyzer.js:44-56 | without cancellation the loop appends exactly the listing's projects; the accumulator stays a prefix |
| DependencyAnalyzerJs.ScanEntry | src/codeGraph/dependencyAnalyzer.js:45-55 | one entry: a sub-directory's walk, or its marker's project, appended after what was there |
| DependencyAnalyzerJs.DetectProjects | src/codeGraph/dependencyAnalyzer.js:21-61 | the projects below the root, or the rejection of a root that is not a directory; an already cancelled token finds none |
| DependencyAnalyzerJs.Decide | src/codeGraph/dependencyAnalyzer.js:82-112 | the if-chain picks the backend exactly when it is one, Next.js exactly when not a backend, React Native exactly when neither, and React exactly when none of the three |
| DependencyAnalyzerJs.ChooseAnalyzerSpec | src/codeGraph/dependencyAnalyzer.js:78-122 | backend first, then Next.js, then React Native, each exactly when its probe holds and the earlier ones fail; React exactly when all three fail |
| DependencyAnalyzerJs.ExpressAloneDiffers | src/codeGraph/dependencyAnalyzer.js:245-249 | an Express project with neither nodemon nor a backend folder goes to the Node analyzer in the TypeScript build and to React here |
| DependencyAnalyzerJs.IsNextJsProject | src/codeGraph/dependencyAnalyzer.js:186-209 | one read of the token; true exactly when not cancelled, `next` is a dependency and src/app or next.config.js exists |
| DependencyAnalyzerJs.IsReactNativeProject | src/codeGraph/dependencyAnalyzer.js:211-231 | one read of the token; true exactly when not cancelled, `react-native` is a dependency and app.json exists |
| DependencyAnalyzerJs.HasBackendFolders | src/codeGraph/dependencyAnalyzer.js:255-272 | true only when one of routes, controllers, models, middleware exists under the root or its src; without cancellation exactly then; false once cancelled |
| DependencyAnalyzerJs.IsNodejsBackendProject | src/codeGraph/dependencyAnalyzer.js:233-253 | true only for Express with nodemon (either dependency kind) or a backend folder; without cancellation exactly then; false once cancelled |
| DependencyAnalyzerJs.GetProjectType | src/codeGraph/dependencyAnalyzer.js:517-530 | the display name is 'Unknown' exactly for a type outside the nine named ones |
| DependencyAnalyzerJs.MarkerTypesNamed | src/codeGraph/dependencyAnalyzer.js:22-33 | every type a marker file gives has a display name |
| DependencyAnalyzerJs.AbsoluteInvalid | src/codeGraph/dependencyAnalyzer.js:473-475 | `isValidFilePath` rejects every absolute path, which is what `path.join` builds from an absolute root |
| DependencyAnalyzerJs.GetAllFiles | src/codeGraph/dependencyAnalyzer.js:274-305 | the walk collects nothing, because every candidate path fails `isValidFilePath` |
| DependencyAnalyzerJs.NoEmptyMatch | src/codeGraph/dependencyAnalyzer.js:358-363 | no pattern captures the empty string, so `filter(Boolean)` drops nothing |
| DependencyAnalyzerJs.CustomImportsOf | src/codeGraph/dependencyAnalyzer.js:366-380 | custom imports come only from Python, Java and PHP projects, and none is empty |
| DependencyAnalyzerJs.ExtractMembers | src/codeGraph/dependencyAnalyzer.js:165-171 | this build's specifiers are exactly the TypeScript build's, the `<link href>` targets and the project type's own imports: its extra `@import '.…'` pattern finds nothing new |
| DependencyAnalyzerJs.CssImportFourTimes | src/codeGraph/dependencyAnalyzer.js:165-171 | `@import './a.css'` is four dependencies here and three in the TypeScript build |
| DependencyAnalyzerJs.CssImportFinders | src/codeGraph/dependencyAnalyzer.js:463-471 | `findRequires` finds nothing in `@import '…'` and `findImports` finds its specifier once |
| DependencyAnalyzerJs.CssImportRelative | src/codeGraph/dependencyAnalyzer.js:336-349 | this `findRelativeImports` finds `@import '.…'` twice, the TypeScript one once |
| DependencyAnalyzerJs.CssImportStyle | src/codeGraph/dependencyAnalyzer.js:351-364 | both builds' `findStyleImports` find `@import '…'` once |
| DependencyAnalyzerJs.CssImportCustom | src/codeGraph/dependencyAnalyzer.js:366-380 | the custom patterns find nothing in `@import '…'` |
| DependencyAnalyzerJs.DependencyCandidates | src/codeGraph/dependencyAnalyzer.js:495-506 | seven candidates: five extensions, the bare path sixth and `index.js` seventh |
| DependencyAnalyzerJs.ResolveDependency | src/codeGraph/dependencyAnalyzer.js:490-515 | only read files are answers; a non-`.` specifier resolves exactly when its join with the project root was read, and to that join |
| DependencyAnalyzerJs.DependencyPrecedence | src/codeGraph/dependencyAnalyzer.js:495-506 | with candidate i read, the answer is a candidate k <= i and every earlier candidate is missing |
| DependencyAnalyzerJs.ExtensionOrderDiffers | src/codeGraph/dependencyAnalyzer.js:495 | with both `x.js` and `x.ts` read this build picks `x.js`, the TypeScript build `x.ts` |
| DependencyAnalyzerJs.DependenciesOf | src/codeGraph/dependencyAnalyzer.js:165-173 | each recorded dependency is a read file not claimed by a specialised graph |
| DependencyAnalyzerJs.GetFileGroup | src/codeGraph/dependencyAnalyzer.js:440-461 | the group is one of 1, 2, 3, 5, 7, 8, 9; it is 3 exactly for Node JSON or Markdown of an unlisted type; 1 or 2 exactly for Node scripts; 5, 7 or 8 exactly for Python, Java and PHP |
| DependencyAnalyzerJs.IndexNodes | src/codeGraph/dependencyAnalyzer.js:396-415 | node i is the i-th recorded file with id i, its project the one registered at its directory |
| DependencyAnalyzerJs.IndexGraphClosed | src/codeGraph/dependencyAnalyzer.js:417-429 | every link of the generic graph joins two of its nodes |
| DependencyAnalyzerJs.EmptyIndexGraph | src/codeGraph/dependencyAnalyzer.js:382-432 | with no file recorded the generic graph is empty |
| DependencyAnalyzerJs.RecordDeps | src/codeGraph/dependencyAnalyzer.js:158-176 | the dependency map stays well formed and gains exactly the files handled |
| DependencyAnalyzerJs.RecordDepsStep | src/codeGraph/dependencyAnalyzer.js:175 | one more read sets that file's entry on the map of the earlier reads |
| DependencyAnalyzerJs.RanEach | src/codeGraph/dependencyAnalyzer.js:71-130 | when the runs answer the projects in order, the j-th run answers the j-th project: a Node project's graph is the answer of the analyzer its run names, any other project has none |
| DependencyAnalyzerJs.RanSnoc | src/codeGraph/dependencyAnalyzer.js:71-130 | one more project's run extends runs that answer the projects in order, and its graph's nodes and links are appended to theirs |
| DependencyAnalyzerJs.ChoicesSnoc | src/codeGraph/dependencyAnalyzer.js:77-80 | a next Node run that used the analyzer the probes name keeps every Node run matching the probes |
| DependencyAnalyzerJs.DependencyAnalyzer.constructor | src/codeGraph/dependencyAnalyzer.js:10-19 | the maps and the root cache start empty, and the analyzer owns a fresh React analyzer |
| DependencyAnalyzerJs.DependencyAnalyzer.FindProjectRoot | src/codeGraph/dependencyAnalyzer.js:307-334 | the answer is always the file's directory, and it is cached |
| DependencyAnalyzerJs.DependencyAnalyzer.ResolveDependencyPath | src/codeGraph/dependencyAnalyzer.js:490-515 | the loop returns the resolution function's answer |
| DependencyAnalyzerJs.DependencyAnalyzer.ResolveRelative | src/codeGraph/dependencyAnalyzer.js:495-507 | the extension loop returns the first candidate read |
| DependencyAnalyzerJs.DependencyAnalyzer.ReadFiles | src/codeGraph/dependencyAnalyzer.js:132-156 | the kept reads are the stored reads of the files probed before cancellation (all of them when never signalled), in list order, and `fileContents` records exactly them |
| DependencyAnalyzerJs.DependencyAnalyzer.ReadOne | src/codeGraph/dependencyAnalyzer.js:136-153 | one file is kept exactly when unclaimed, readable and not blank, and is then recorded |
| DependencyAnalyzerJs.DependencyAnalyzer.ComputeDependencies | src/codeGraph/dependencyAnalyzer.js:158-176 | the entries of the first `done` reads are recorded and their files cached; `cancelled` exactly when the loop stopped early, never without a signal, and nothing is handled when the token already was signalled |
| DependencyAnalyzerJs.DependencyAnalyzer.ComputeOne | src/codeGraph/dependencyAnalyzer.js:163-175 | one file's entry is set and its root (its own directory) cached; nothing else changes |
| DependencyAnalyzerJs.DependencyAnalyzer.FormatDependencyGraph | src/codeGraph/dependencyAnalyzer.js:382-432 | the output is the numbered graph of `dependencies`, and every recorded file gets a cached root |
| DependencyAnalyzerJs.DependencyAnalyzer.NumberFiles | src/codeGraph/dependencyAnalyzer.js:396-415 | the numbering builds the indexed nodes and a `fileIndex` that agrees with the file positions |
| DependencyAnalyzerJs.DependencyAnalyzer.FileNode | src/codeGraph/dependencyAnalyzer.js:397-414 | one file's node, its project looked up at its own directory |
| DependencyAnalyzerJs.DependencyAnalyzer.AnalyzeProjects | src/codeGraph/dependencyAnalyzer.js:71-130 | without cancellation there is one run per project, in order, each answering its project (a Node project's graph is the answer of the analyzer its run names, a throwing analyzer contributing nothing), and the nodes and links are the runs' graphs concatenated; while quiet each Node run used the analyzer the probes name; claimed files are the string ids of the nodes; no Node project gives none; cancelled exactly when signalled beforehand and there is a project, and then nothing is collected |
| DependencyAnalyzerJs.DependencyAnalyzer.ProjectStep | src/codeGraph/dependencyAnalyzer.js:71-127 | one pass of the loop: it stops exactly when the token was signalled before the poll; otherwise it appends the run answering the next project and that run's graph, keeping the claimed ids those of the nodes, and a non-Node project adds nothing |
| DependencyAnalyzerJs.DependencyAnalyzer.RunNodeProject | src/codeGraph/dependencyAnalyzer.js:77-122 | a Node project's graph is the answer of the analyzer its run names, and while quiet that analyzer is the one the probes name |
| DependencyAnalyzerJs.DependencyAnalyzer.AnalyzeNodeProject | src/codeGraph/dependencyAnalyzer.js:78-122 | without cancellation the choice is the one the probes name; the graph is the chosen analyzer's own answer: the lone application node of nodejsAnalyzer.js for Node, the Next.js and React Native analyzers' `Analyzed` results, or for React the empty graph with no flavour, the application node when nothing was recorded and a throw otherwise |
| DependencyAnalyzerJs.DependencyAnalyzer.AnalyzeFiles | src/codeGraph/dependencyAnalyzer.js:132-178 | since no file is collected, nothing is read or recorded, and the graph is the numbering of the earlier map |
| DependencyAnalyzerJs.DependencyAnalyzer.AnalyzeDependencies | src/codeGraph/dependencyAnalyzer.js:63-184 | the contents and dependency maps never change; a root that cannot be listed rejects; without cancellation `projects` is the map of the detected projects and each Node run used the analyzer the probes name; a graph, when there is one, is the generic graph followed by the nodes and links of runs that answer the projects in order, with none when there is no Node project; a token signalled beforehand finds no projects |
| DependencyAnalyzerJs.DependencyAnalyzer.AnalyzeDetected | src/codeGraph/dependencyAnalyzer.js:66-184 | once the projects are known: the maps never change; while quiet there is a graph and each Node run used the analyzer the probes name; a graph is the generic graph followed by the runs' nodes and links, the runs answering the projects in order; a token signalled beforehand gives the generic graph with no project and no graph otherwise |
| Structures.DependencyNode.constructor | src/codeGraph/structures/DependencyTree.js:2-10 | a new node keeps its id, type, name and content, with no children, no dependencies and no parent |
| Structures.DependencyNode.AddChild | src/codeGraph/structures/DependencyTree.js:12-15 | the child points back here; the child map binds its id to it, a new id appended at the end of the map's order and an old one keeping its place; nothing else changes |
| Structures.DependencyNode.AddDependency | src/codeGraph/structures/DependencyTree.js:17-19 | the dependency set gains the id once, in insertion order; children and parent unchanged |
| Structures.GroupAndRadius | src/codeGraph/structures/DependencyTree.js:90-114 | groups lie in [1, 6]; an unknown type gets group 6 and radius 10; 'project' gets group 6 since its 0 is falsy, but radius 30; every other listed type gets its own group |
| Structures.InheritedKindLooks | src/codeGraph/structures/DependencyTree.js:90-113 | as written, `groups[type]` and `sizes[type]` for the type `constructor` find the inherited `Object.prototype` member, where the corrected lookup gives 6 and 10 |
| Structures.DependencyTree.constructor | src/codeGraph/structures/DependencyTree.js:23-27 | a new tree maps 'root' to a parentless, childless 'project' node named after the project type |
| Structures.DependencyTree.AddNode | src/codeGraph/structures/DependencyTree.js:29-37 | the id is rebound to a fresh node; the node named `parentId` after that rebinding adopts it (so a node may be its own parent); with no such node it stays parentless |
| Structures.DependencyTree.Register | src/codeGraph/structures/DependencyTree.js:31 | `nodesMap.set` for a new node: the map is rebound and the tree stays well formed |
| Structures.DependencyTree.Attach | src/codeGraph/structures/DependencyTree.js:32-35 | the parent's child map gains the node and the node points to the parent; its dependencies are unchanged |
| Structures.DependencyTree.DepLinks | src/codeGraph/structures/DependencyTree.js:71-80 | each dependency link goes from the node to an id the tree knows, typed 'dependency' |
| Structures.DependencyTree.AllLinksAppend | src/codeGraph/structures/DependencyTree.js:58-80 | emitting one more node appends exactly its hierarchy and dependency links |
| Structures.DependencyTree.Visit | src/codeGraph/structures/DependencyTree.js:45-84 | a visited id adds nothing; a new one is emitted at its level, with links exactly those of the emitted nodes; ids stay distinct, every later node hangs below an earlier one, and every child of a node emitted from here on is emitted |
| Structures.DependencyTree.WalkChildren | src/codeGraph/structures/DependencyTree.js:83 | walking the children keeps the emitted prefix, distinct ids, the links of the emitted nodes and the shape below the node, and leaves every child of the node and of what it emits emitted |
| Structures.DependencyTree.WalkChild | src/codeGraph/structures/DependencyTree.js:83 | the walk of one child keeps the emitted prefix and the processed ids, and leaves that child and every earlier one processed |
| Structures.DependencyTree.ToGraphData | src/codeGraph/structures/DependencyTree.js:40-88 | the root is emitted first at level 0; each id appears once; every node after it is a child of an earlier emitted node one level up; every child of an emitted node is emitted, so every node reachable from the root is; links are the emitted nodes' own links in emission order |
| Structures.DependencyTree.OrphansNotEmitted | src/codeGraph/structures/DependencyTree.js:33-35 | a node added under a missing parent is never emitted: every emitted node but the root has a parent |
| MinimalRepoStructure.NameLeTotal | src/minimalRepoStructure.ts:26 | the name order compares any two names |
| MinimalRepoStructure.NameLeTrans | src/minimalRepoStructure.ts:26 | the name order is transitive |
| MinimalRepoStructure.LeTotal | src/minimalRepoStructure.ts:24-27 | the comparator, files before folders and then by name, compares any two entries |
| MinimalRepoStructure.LeTrans | src/minimalRepoStructure.ts:24-27 | the comparator is transitive |
| MinimalRepoStructure.Filter | src/minimalRepoStructure.ts:23 | only entries of the listing that are neither ignored nor hidden are kept |
| MinimalRepoStructure.FilterKeepsShown | src/minimalRepoStructure.ts:23 | every shown entry is kept as often as it occurs, and nothing else is |
| MinimalRepoStructure.Insert | src/minimalRepoStructure.ts:24-27 | inserting adds exactly the one entry |
| MinimalRepoStructure.Sort | src/minimalRepoStructure.ts:24-27 | sorting is a permutation |
| MinimalRepoStructure.InsertSorted | src/minimalRepoStructure.ts:24-27 | inserting into a sorted listing keeps it sorted |
| MinimalRepoStructure.SortSorted | src/minimalRepoStructure.ts:24-27 | the sorted listing is ordered by the comparator |
| MinimalRepoStructure.Arrange | src/minimalRepoStructure.ts:22-27 | the arranged entries are shown entries of the listing |
| MinimalRepoStructure.ArrangeSpec | src/minimalRepoStructure.ts:22-27 | the arrangement is sorted and a permutation of exactly the shown entries, with every file before every folder |
| MinimalRepoStructure.RootHeaderAndError | src/minimalRepoStructure.ts:18-58 | a folder that cannot be read renders as its single error line, with no header; a readable root starts with `<name>/`; a non-root folder with nothing shown renders as the empty string |
| MinimalRepoStructure.LinesPrefixed | src/minimalRepoStructure.ts:29-44 | every line drawn below a folder starts with the prefix it is drawn under |
| MinimalRepoStructure.EntriesPrefixed | src/minimalRepoStructure.ts:29-44 | every line of the remaining entries starts with the prefix |
| MinimalRepoStructure.EntryLine | src/minimalRepoStructure.ts:29-44 | an entry's line is the prefix, `└── ` for the last entry and `├── ` otherwise, and its name; a folder adds `/`, followed by its own lines under the extended prefix, or `/ (ignored)` for a framework directory; then come the lines of the next entries |
| NextjsAnalyzer.FilterKeep | src/codeGraph/analyzers/nextjsAnalyzer.ts:204-211 | the filter keeps exactly the parts that are not groups, private folders or the names page, app, pages, src |
| NextjsAnalyzer.MapPart | src/codeGraph/analyzers/nextjsAnalyzer.ts:212-218 | rewriting a part adds no `/` and leaves no non-empty part empty |
| NextjsAnalyzer.MapParts | src/codeGraph/analyzers/nextjsAnalyzer.ts:212-218 | the mapping rewrites each part in place, keeping the count |
| NextjsAnalyzer.DropEmpty | src/codeGraph/analyzers/nextjsAnalyzer.ts:219 | `filter(Boolean)` leaves only non-empty parts of the list |
| NextjsAnalyzer.RouteShape | src/codeGraph/analyzers/nextjsAnalyzer.ts:200-224 | a route name starts with `/`, never holds `//`, and ends in `/` only when it is `/` |
| NextjsAnalyzer.RouteName | src/codeGraph/analyzers/nextjsAnalyzer.ts:200-224 | `getRouteName` is the route of the path relative to the root: it starts with `/`, never holds `//`, and ends in `/` only when it is `/` |
| NextjsAnalyzer.PagesRouteIsRoot | src/codeGraph/analyzers/nextjsAnalyzer.ts:201-223 | a directory measured from itself is named `/` |
| NextjsAnalyzer.MapPlain | src/codeGraph/analyzers/nextjsAnalyzer.ts:212-218 | plain folder names pass the mapping unchanged |
| NextjsAnalyzer.DropNonEmpty | src/codeGraph/analyzers/nextjsAnalyzer.ts:219 | a list without empty parts passes `filter(Boolean)` unchanged |
| NextjsAnalyzer.DescendantRoute | src/codeGraph/analyzers/nextjsAnalyzer.ts:200-224 | the route of a directory below the root with plain folder names is `/` and the kept names joined by `/` |
| NextjsAnalyzer.AppRoutesUseLastTwoFolders | src/codeGraph/analyzers/nextjsAnalyzer.ts:37 | with the app router the route is measured from two levels above the current directory, so `src/app/a/b/c` and `src/app/x/b/c` get the same route |
| NextjsAnalyzer.PagesRoutesAllRoot | src/codeGraph/analyzers/nextjsAnalyzer.ts:37 | under the pages directory every page is measured from its own directory and named `/` |
| NextjsAnalyzer.RoutesDistinct | src/codeGraph/analyzers/nextjsAnalyzer.ts:200-224 | distinct directories whose folder names are plain and kept get distinct routes |
| NextjsAnalyzer.FilterAllKept | src/codeGraph/analyzers/nextjsAnalyzer.ts:204-211 | a list whose every part is kept passes the filter unchanged |
| NextjsAnalyzer.RouteExample | src/codeGraph/analyzers/nextjsAnalyzer.ts:200-224 | `blog/(marketing)/[slug]` is routed `/blog/:slug` |
| NextjsAnalyzer.FindScript | src/codeGraph/analyzers/nextjsAnalyzer.ts:39 | the entry found is the first of the listing whose name is the base with a script extension, and none is found when no entry is one |
| NextjsAnalyzer.ResolveImportPath | src/codeGraph/analyzers/nextjsAnalyzer.ts:178-198 | the answer is the first accessible path among the four extension candidates and then the four `index` candidates, with `@/` resolved under the project's src |
| NextjsAnalyzer.AddStep | src/codeGraph/analyzers/nextjsAnalyzer.ts:54-62 | adding a new file's node, anchored to an existing node, keeps the graph a tree with unique ids and the processed set exact |
| NextjsAnalyzer.ProcessDependencies | src/codeGraph/analyzers/nextjsAnalyzer.ts:122-159 | the graph only grows, stays a tree rooted at the application node, and every link added is an `imports` link to a new `component` node |
| NextjsAnalyzer.ProcessImport | src/codeGraph/analyzers/nextjsAnalyzer.ts:127-157 | one import extends the graph in that way and keeps the importing node |
| NextjsAnalyzer.AddFile | src/codeGraph/analyzers/nextjsAnalyzer.ts:43-70 | a processed file is not read and adds nothing; otherwise the read fails exactly when the file is not a file, and a file read pushes its node with the read content, then its link |
| NextjsAnalyzer.ScanLayout | src/codeGraph/analyzers/nextjsAnalyzer.ts:39-71 | a layout returned is the first layout script of the listing, linked to the parent by `layout-structure` with value 2; with no layout script nothing changes |
| NextjsAnalyzer.ScanPage | src/codeGraph/analyzers/nextjsAnalyzer.ts:73-104 | a page added is the first page script, a `page` node named by its route and linked by `route` to the layout or parent; with no page script nothing is added |
| NextjsAnalyzer.ScanAppDirectory | src/codeGraph/analyzers/nextjsAnalyzer.ts:34-120 | the graph only grows and stays a tree; a path that is not a directory rejects and adds nothing; a walk that meets no failing read succeeds |
| NextjsAnalyzer.WalkSubdirectories | src/codeGraph/analyzers/nextjsAnalyzer.ts:106-119 | walking the sub-directories only grows the graph and keeps its invariant, and succeeds when every walked sub-directory's walk meets no failing read |
| NextjsAnalyzer.AnalyzeNextProject | src/codeGraph/analyzers/nextjsAnalyzer.ts:6-32 | src/app is used when it exists, else src/pages; one that is not a directory rejects, and a walk meeting no failing read succeeds; an answer starts with the application node, is a closed tree with unique ids, and every other node is a file path |
| NodejsAnalyzer.GroupTable | src/codeGraph/analyzers/nodejsAnalyzer.ts:210-226 | no group is 0: 'application' (whose 0 is falsy) and unknown types get 13, every other listed type its own group; radii are the table's, 10 for unknown types |
| NodejsAnalyzer.FirstRule | src/codeGraph/analyzers/nodejsAnalyzer.ts:271-284 | the type is that of the first rule whose folder name the directory contains, and 'module' when none does |
| NodejsAnalyzer.FirstRuleAvoids | src/codeGraph/analyzers/nodejsAnalyzer.ts:271-284 | a type that no rule gives, other than 'module', is never the answer |
| NodejsAnalyzer.FileTypeNotServer | src/codeGraph/analyzers/nodejsAnalyzer.ts:271-284 | `getFileType` never answers 'server', so an imported file is never typed as the entry file |
| NodejsAnalyzer.ScriptStem | src/codeGraph/analyzers/nodejsAnalyzer.ts:144 | stripping removes exactly a trailing `.js` or `.ts`, and leaves any other name as it is |
| NodejsAnalyzer.AddStep | src/codeGraph/analyzers/nodejsAnalyzer.ts:151-161 | a non-server node with its anchoring link keeps the graph a tree rooted at the application node, with the server (if any) second |
| NodejsAnalyzer.Push | src/codeGraph/analyzers/nodejsAnalyzer.ts:151-161 | the node and link are appended, the file (if any) is marked processed, and the invariant holds |
| NodejsAnalyzer.ResolveImportPath | src/codeGraph/analyzers/nodejsAnalyzer.ts:306-330 | the answer is the first accessible of `base.ts`, `base.js`, `base.json`, then `base/index.*`, with the base beside the file for `.`, under the root for `/`, under `<root>/src` otherwise; the bare base is never an answer |
| NodejsAnalyzer.DependencyNode | src/codeGraph/analyzers/nodejsAnalyzer.ts:239-247 | a dependency node is never typed 'server' |
| NodejsAnalyzer.ProcessDependencies | src/codeGraph/analyzers/nodejsAnalyzer.ts:228-269 | the graph only grows and keeps its invariant, and every link added is an `imports` link of value 1 |
| NodejsAnalyzer.ProcessImport | src/codeGraph/analyzers/nodejsAnalyzer.ts:235-267 | one import grows the graph the same way and keeps the importing node |
| NodejsAnalyzer.EndpointNodes | src/codeGraph/analyzers/nodejsAnalyzer.ts:191-199 | one endpoint node per matched path, in order, with id `<route>-<path>`, group 9 and radius 8 |
| NodejsAnalyzer.EndpointLinks | src/codeGraph/analyzers/nodejsAnalyzer.ts:200-205 | one `endpoint-definition` link per matched path, from its endpoint to the route file |
| NodejsAnalyzer.EndpointsSnoc | src/codeGraph/analyzers/nodejsAnalyzer.ts:189-206 | one more match appends its node and its link |
| NodejsAnalyzer.AnalyzeRoutes | src/codeGraph/analyzers/nodejsAnalyzer.ts:178-208 | the route file gains exactly the endpoint nodes and links of its matches, in pattern order, with no deduplication; nothing is marked processed |
| NodejsAnalyzer.AddEndpoints | src/codeGraph/analyzers/nodejsAnalyzer.ts:187-207 | the loop appends exactly the endpoints of the given paths |
| NodejsAnalyzer.PushEndpoint | src/codeGraph/analyzers/nodejsAnalyzer.ts:190-205 | one match appends its endpoint node and link and keeps the invariant |
| NodejsAnalyzer.DuplicateEndpoints | src/codeGraph/analyzers/nodejsAnalyzer.ts:192 | a path declared under two verbs gives two endpoint nodes with one id, so ids are not unique |
| NodejsAnalyzer.RouteMembers | src/codeGraph/analyzers/nodejsAnalyzer.ts:179-191 | one verb's pattern finds exactly the non-empty quote-free paths of that verb's route calls |
| NodejsAnalyzer.EndpointPathsMembers | src/codeGraph/analyzers/nodejsAnalyzer.ts:179-192 | the endpoint paths are exactly the non-empty quote-free paths of route calls with one of get, post, put, delete, patch |
| NodejsAnalyzer.ScanFile | src/codeGraph/analyzers/nodejsAnalyzer.ts:136-174 | a processed file adds nothing; otherwise the read fails exactly for a non-file, and a read file pushes its node (named without `.js`/`.ts`) and a `<type>-structure` link to the folder node first |
| NodejsAnalyzer.ScanNewFile | src/codeGraph/analyzers/nodejsAnalyzer.ts:142-174 | a new file's node and structure link come first, then what it imports and declares |
| NodejsAnalyzer.FollowFile | src/codeGraph/analyzers/nodejsAnalyzer.ts:163-174 | following a pushed file's imports and endpoints only grows the graph |
| NodejsAnalyzer.ScanDirectory | src/codeGraph/analyzers/nodejsAnalyzer.ts:123-176 | the graph only grows and keeps its invariant; a path that is not a directory rejects and adds nothing |
| NodejsAnalyzer.ScanEntries | src/codeGraph/analyzers/nodejsAnalyzer.ts:127-175 | the entry loop only grows the graph and keeps its invariant |
| NodejsAnalyzer.PackageMain | src/codeGraph/analyzers/nodejsAnalyzer.ts:341-348 | the manifest's `main`, and 'index.js' when package.json is missing or does not parse |
| NodejsAnalyzer.MainFile | src/codeGraph/analyzers/nodejsAnalyzer.ts:22-41 | the entry file found exists; without an extension `.ts` is tried before `.js`; a missing path falls back to `src/<basename>`, and is not found when that is missing too |
| NodejsAnalyzer.ResolveMainFile | src/codeGraph/analyzers/nodejsAnalyzer.ts:22-41 | the lookup steps return the entry file that `MainFile` names |
| NodejsAnalyzer.ServerPath | src/codeGraph/analyzers/nodejsAnalyzer.ts:22-41 | the entry file found exists and comes from a non-empty `main`; without a package.json it is the lookup of `index.js` |
| NodejsAnalyzer.FindKind | src/codeGraph/analyzers/nodejsAnalyzer.ts:101 | `nodes.find` returns the first node of the type, and nothing when there is none |
| NodejsAnalyzer.FindServer | src/codeGraph/analyzers/nodejsAnalyzer.ts:101 | under the invariant the server lookup finds the second node when the entry file was pushed, and nothing otherwise |
| NodejsAnalyzer.AddFolder | src/codeGraph/analyzers/nodejsAnalyzer.ts:90-117 | an existing folder gains its node and a `folder-structure` link of value 2 to the server or application node, then its scan |
| NodejsAnalyzer.AddServer | src/codeGraph/analyzers/nodejsAnalyzer.ts:21-70 | a server node is pushed exactly when the entry file is found: the second node, linked `server-entry` with value 2 to the application; a read error only for an entry path that is not a file |
| NodejsAnalyzer.AnalyzeNodeProject | src/codeGraph/analyzers/nodejsAnalyzer.ts:6-121 | it rejects when the entry file found is not a file or a standard folder exists but is not a directory, and, when no directory entry dangles, only then; the graph is a closed tree hung from the application node; a server node exists exactly when the entry file is found and is then second, linked `server-entry`; the folder nodes come in the order of the folder list, and every folder that exists under src (else the root) has its node and its `folder-structure` link to the server, else the application |
| NodejsAnalyzer.AddFolders | src/codeGraph/analyzers/nodejsAnalyzer.ts:76-118 | every listed folder that exists under `rootDir` gains its node, in the order of the folder list, and its link; the call fails only when a folder exists but is not a directory, and then always when no entry dangles |
| ReactAnalyzer.DetectedType | src/codeGraph/analyzers/reactAnalyzer.ts:133-149 | a flavour is found only from a readable manifest, and is one of react-native, nextjs, react |
| ReactAnalyzer.DetectionOrder | src/codeGraph/analyzers/reactAnalyzer.ts:142-145 | each flavour is answered exactly under its condition: React Native before Next.js before React, and no flavour for an unreadable manifest or one listing none of them |
| ReactAnalyzer.GroupSpan | src/codeGraph/analyzers/reactAnalyzer.ts:234 | `/\(.*?\)/` matches from the first `(` to the first `)` after it, and does not match when no `(` has a `)` after it |
| ReactAnalyzer.RemoveFirstGroup | src/codeGraph/analyzers/reactAnalyzer.ts:234 | the first group match is cut out, and the name is unchanged when there is none |
| ReactAnalyzer.FirstBracket | src/codeGraph/analyzers/reactAnalyzer.ts:234 | the position found is the leftmost match of the bracket form at or after the start, and none is found when there is no match |
| ReactAnalyzer.ReplaceFirst | src/codeGraph/analyzers/reactAnalyzer.ts:234 | a name without a match of the bracket form is unchanged |
| ReactAnalyzer.DynamicRewrite | src/codeGraph/analyzers/reactAnalyzer.ts:234 | the first `[word]` becomes `:word`, the rest unchanged |
| ReactAnalyzer.DynamicAfter | src/codeGraph/analyzers/reactAnalyzer.ts:234 | a `[word]` after a prefix with no `[` is the one rewritten |
| ReactAnalyzer.NoCatchAll | src/codeGraph/analyzers/reactAnalyzer.ts:234 | without a `[.` the catch-all replacement changes nothing |
| ReactAnalyzer.NormalizePlain | src/codeGraph/analyzers/reactAnalyzer.ts:233-235 | a name with no group and no bracket form is left alone |
| ReactAnalyzer.NormalizeNoSlash | src/codeGraph/analyzers/reactAnalyzer.ts:233-235 | rewriting never introduces a `/`, so a rewritten directory name stays one segment |
| ReactAnalyzer.GroupRemoved | src/codeGraph/analyzers/reactAnalyzer.ts:234 | a route group's name rewrites to the empty string |
| ReactAnalyzer.DynamicRewritten | src/codeGraph/analyzers/reactAnalyzer.ts:234 | `[name]` becomes `:name` |
| ReactAnalyzer.DynamicFirst | src/codeGraph/analyzers/reactAnalyzer.ts:234 | a name starting with `[name]` and holding no group and no catch-all rewrites only that segment |
| ReactAnalyzer.CatchAllRewritten | src/codeGraph/analyzers/reactAnalyzer.ts:234 | `[...all]` becomes `*` |
| ReactAnalyzer.FirstDynamicOnly | src/codeGraph/analyzers/reactAnalyzer.ts:234 | only the first dynamic segment is rewritten: `[a][b]` becomes `:a[b]` |
| ReactAnalyzer.JoinRelativeClean | src/codeGraph/analyzers/reactAnalyzer.ts:221 | `path.join` of clean names onto a clean relative path only appends them |
| ReactAnalyzer.NormalizeParts | src/codeGraph/analyzers/reactAnalyzer.ts:229 | the mapping rewrites every segment in place |
| ReactAnalyzer.BuildRouteFromPath | src/codeGraph/analyzers/reactAnalyzer.ts:228-231 | a route always starts with `/` |
| ReactAnalyzer.EmptyRoute | src/codeGraph/analyzers/reactAnalyzer.ts:195-230 | the starting directory's empty route path gives `/` |
| ReactAnalyzer.PlainRoute | src/codeGraph/analyzers/reactAnalyzer.ts:228-231 | a route path of plain names is its own route behind a `/` |
| ReactAnalyzer.TopLevelGroupRoute | src/codeGraph/analyzers/reactAnalyzer.ts:221-230 | a page directly inside a top-level route group is routed `/.`, since `path.join('', '')` is `.` |
| ReactAnalyzer.DotRoute | src/codeGraph/analyzers/reactAnalyzer.ts:228-231 | the route path `.` gives `/.` |
| ReactAnalyzer.LayoutCandidates | src/codeGraph/analyzers/reactAnalyzer.ts:241-244 | the layouts tried in a directory are layout.tsx, layout.jsx and layout.js, in that order |
| ReactAnalyzer.LayoutSearch | src/codeGraph/analyzers/reactAnalyzer.ts:240-254 | the layout found exists and is the first layout file of the nearest directory that has one, reached through directories that all mention `app`; none when no such directory has one |
| ReactAnalyzer.OwnLayoutWins | src/codeGraph/analyzers/reactAnalyzer.ts:237-257 | for a Next.js page in an app directory, a layout in its own directory is the one it gets, the first of the three present |
| ReactAnalyzer.ResolveComponent | src/codeGraph/analyzers/reactAnalyzer.ts:267-290 | only `.` and `@/` imports resolve, and only to paths that exist |
| ReactAnalyzer.ResolvedAll | src/codeGraph/analyzers/reactAnalyzer.ts:265-291 | at most one file per specifier |
| ReactAnalyzer.ResolvedAllMembers | src/codeGraph/analyzers/reactAnalyzer.ts:265-291 | a file is resolved exactly when some specifier resolves to it |
| ReactAnalyzer.ComponentPrecedence | src/codeGraph/analyzers/reactAnalyzer.ts:272-280 | with base plus the i-th extension present, the answer is base plus an extension no later than the i-th |
| ReactAnalyzer.ComponentDependenciesSpec | src/codeGraph/analyzers/reactAnalyzer.ts:259-293 | the dependencies are distinct and are exactly the files some `import … from` statement resolves to |
| ReactAnalyzer.FindComponentDependencies | src/codeGraph/analyzers/reactAnalyzer.ts:259-293 | the loop returns the deduplicated resolved files in first-seen order, distinct, exactly those some import resolves to |
| ReactAnalyzer.ResolveOne | src/codeGraph/analyzers/reactAnalyzer.ts:266-290 | one turn adds the specifier's file when it resolves and is new, and keeps the set distinct |
| ReactAnalyzer.FindPageFile | src/codeGraph/analyzers/reactAnalyzer.ts:202 | the page file is the first non-directory entry whose name matches the unanchored page pattern, and none when no entry does |
| ReactAnalyzer.ScannedFrame | src/codeGraph/analyzers/reactAnalyzer.ts:199-226 | what a scan of a directory recorded depends only on the entries below that directory |
| ReactAnalyzer.SubdirectoryStep | src/codeGraph/analyzers/reactAnalyzer.ts:218-224 | the scan of one more sub-directory, changing entries only below it, extends the loop's invariant |
| ReactAnalyzer.SiblingsKept | src/codeGraph/analyzers/reactAnalyzer.ts:218-224 | scanning one sub-directory keeps the scans of the earlier sub-directories recorded |
| ReactAnalyzer.SiblingStep | src/codeGraph/analyzers/reactAnalyzer.ts:218-224 | the scan of a sibling sub-directory survives a scan of another one |
| ReactAnalyzer.SiblingKept | src/codeGraph/analyzers/reactAnalyzer.ts:218-224 | two differently named sub-directories have disjoint scans |
| ReactAnalyzer.PagesDirStep | src/codeGraph/analyzers/reactAnalyzer.ts:191-197 | scanning one more page directory keeps the scans of the earlier ones |
| ReactAnalyzer.PagesDirsApart | src/codeGraph/analyzers/reactAnalyzer.ts:191-197 | the flavour's page directories do not nest, so their scans are disjoint |
| ReactAnalyzer.NextPagesDirs | src/codeGraph/analyzers/reactAnalyzer.ts:168-172 | the Next.js page directories are src/app, app, pages and src/pages, each joined segment by segment |
| ReactAnalyzer.AddStep | src/codeGraph/analyzers/reactAnalyzer.ts:33-42 | adding a new path's node with its structural link keeps the tree shape, unique ids and the processed set exact |
| ReactAnalyzer.AppIdNotPath | src/codeGraph/analyzers/reactAnalyzer.ts:17 | the application node's id never starts with `/`, so it never collides with a file path |
| ReactAnalyzer.LayoutPut | src/codeGraph/analyzers/reactAnalyzer.ts:247 | recording a layout file with its content keeps the maps faithful to the filesystem |
| ReactAnalyzer.PagePut | src/codeGraph/analyzers/reactAnalyzer.ts:210-215 | recording a page read from the filesystem with a recorded layout keeps the maps faithful |
| ReactAnalyzer.ComponentsTrans | src/codeGraph/analyzers/reactAnalyzer.ts:93-131 | components appended after a prefix whose tail from `from` is components leave every node from `from` on a component |
| ReactAnalyzer.NoPagesStep | src/codeGraph/analyzers/reactAnalyzer.ts:31-46 | a layout node, or nothing, followed by its components keeps the nodes from `from` on free of pages |
| ReactAnalyzer.PagesLinkedStep | src/codeGraph/analyzers/reactAnalyzer.ts:51-73 | a new page node, its `PageLink` (`uses-layout` to its own layout when that layout is recorded, else `route` to the application) and then components keep every page node linked as its recorded page says |
| ReactAnalyzer.OwnPageLink | src/codeGraph/analyzers/reactAnalyzer.ts:56-69 | when no two recorded pages share a path string, each page node's link is exactly the `PageLink` of its own page |
| ReactAnalyzer.ReactAnalyzer.constructor | src/codeGraph/analyzers/reactAnalyzer.ts:6-8 | the pages and layouts start empty and no flavour is set |
| ReactAnalyzer.ReactAnalyzer.FindLayout | src/codeGraph/analyzers/reactAnalyzer.ts:237-257 | the answer is the page's layout, searched only for a Next.js page in an app directory; it fails exactly when that layout cannot be read; a layout found is recorded with its content, and nothing else changes |
| ReactAnalyzer.ReactAnalyzer.ScanPageFile | src/codeGraph/analyzers/reactAnalyzer.ts:202-216 | with no page file nothing changes; otherwise it succeeds exactly when the page and its layout can be read, and then records the page with its content, layout, route and app-directory flag |
| ReactAnalyzer.ReactAnalyzer.ScanPagesRecursively | src/codeGraph/analyzers/reactAnalyzer.ts:199-226 | maps only grow and stay faithful; pages are only added below the directory; an aborted listing or read leaves both maps unchanged; otherwise the directory's page is recorded under its route, and the directory counts as `Scanned`: recursively, every sub-directory not starting with `_` or `.` has its page recorded under its route |
| ReactAnalyzer.ReactAnalyzer.ScanSubdirectories | src/codeGraph/analyzers/reactAnalyzer.ts:218-224 | the sub-directory loop only adds pages at least two levels below the directory, and leaves every entry scanned: a directory entry not starting with `_` or `.` is `Scanned` with its normalised route |
| ReactAnalyzer.ReactAnalyzer.ScanSubdirectory | src/codeGraph/analyzers/reactAnalyzer.ts:219-223 | one entry of the loop: the scans of the entries before it stay recorded, and this entry's is added; changes stay two levels below the directory |
| ReactAnalyzer.ReactAnalyzer.AnalyzePagesDirectory | src/codeGraph/analyzers/reactAnalyzer.ts:191-197 | scanning the flavour's page directories only grows the maps and keeps them faithful, and leaves each of those directories `Scanned` from the empty route |
| ReactAnalyzer.ReactAnalyzer.CreateFileNode | src/codeGraph/analyzers/reactAnalyzer.ts:80-91 | the node of a layout or page, its project root found walking up from the file path itself |
| ReactAnalyzer.ReactAnalyzer.ProcessFileDependencies | src/codeGraph/analyzers/reactAnalyzer.ts:93-131 | the graph only grows and keeps its invariant, every dependency that is a file ends up processed, and every node it adds is a component |
| ReactAnalyzer.ReactAnalyzer.ProcessDependency | src/codeGraph/analyzers/reactAnalyzer.ts:101-129 | a processed or unreadable dependency changes nothing; a new file gets its component node and an `imports` link from the source, in that order, and every node added is a component |
| ReactAnalyzer.ReactAnalyzer.AddEntry | src/codeGraph/analyzers/reactAnalyzer.ts:32-46 | a processed entry adds nothing; a new one gets its node and structural link first, then its components |
| ReactAnalyzer.ReactAnalyzer.EmitLayouts | src/codeGraph/analyzers/reactAnalyzer.ts:31-47 | every recorded layout gets a node, and none of the nodes it adds is a page |
| ReactAnalyzer.ReactAnalyzer.EmitLayout | src/codeGraph/analyzers/reactAnalyzer.ts:32-45 | one layout ends up with a node; when new, its node has kind `layout` and is followed only by component nodes, and the graph keeps its invariant and only grows |
| ReactAnalyzer.ReactAnalyzer.EmitPages | src/codeGraph/analyzers/reactAnalyzer.ts:50-75 | every recorded page gets a node and the layouts keep theirs; every page node is linked by the `PageLink` of a recorded page with the node's path: `uses-layout` with value 2 to that page's own layout when the layout is recorded, else `route` with value 1 to the application |
| ReactAnalyzer.ReactAnalyzer.EmitPage | src/codeGraph/analyzers/reactAnalyzer.ts:51-74 | a page already processed adds nothing; a new one gets its file node, then its `PageLink`: `uses-layout` with value 2 to its own layout when that layout is recorded, else `route` with value 1 to the application |
| ReactAnalyzer.ReactAnalyzer.EmitGraph | src/codeGraph/analyzers/reactAnalyzer.ts:16-77 | the emitted graph starts with the application node, is a closed tree of structural links with one node per path, links every page node by its page's `PageLink`, and has a node for every recorded layout and page |
| ReactAnalyzer.ReactAnalyzer.AnalyzeReactProject | src/codeGraph/analyzers/reactAnalyzer.ts:10-78 | the flavour is the detected one; with none the graph is empty and the maps unchanged; otherwise the graph starts with the application node, is a closed tree with one node per path, and has a node for every recorded layout and page; each link is a layout's `layout-structure` link to the application, a component's `imports` link, or for a page node the `PageLink` of a recorded page with the node's path (`uses-layout` to its own recorded layout, else `route` to the application); every page the scans of the flavour's page directories find is recorded; the maps only grow and stay faithful |
| ReactAnalyzerJs.StripScriptExtension | src/codeGraph/analyzers/reactAnalyzer.js:409 | a name ending in `.js`, `.jsx`, `.ts` or `.tsx` loses a non-empty suffix and keeps its prefix; any other name is unchanged |
| ReactAnalyzerJs.Rooted | src/codeGraph/analyzers/reactAnalyzer.js:418-424 | the cleaned route starts with `/`, has no doubled slash, and ends in a slash only when it is `/` |
| ReactAnalyzerJs.RouteName | src/codeGraph/analyzers/reactAnalyzer.js:408-424 | every route name is rooted, has no doubled slash and no trailing slash except for `/` |
| ReactAnalyzerJs.GetRouteName | src/codeGraph/analyzers/reactAnalyzer.js:404-425 | the route of any file and pages directory is rooted and has no doubled slash |
| ReactAnalyzerJs.RouteOfDescendant | src/codeGraph/analyzers/reactAnalyzer.js:405-416 | a file below the pages directory is routed by the path segments between the two |
| ReactAnalyzerJs.Untouched | src/codeGraph/analyzers/reactAnalyzer.js:412-414 | a name without `[` and `(` is left unchanged by the catch-all, dynamic and group replacements |
| ReactAnalyzerJs.RouteFromSteps | src/codeGraph/analyzers/reactAnalyzer.js:408-424 | a replace-chain result that needs no slash clean-up becomes the route with a `/` in front |
| ReactAnalyzerJs.TopLevelRoute | src/codeGraph/analyzers/reactAnalyzer.js:409-410 | a page file `name.tsx` directly in the pages directory is routed `/name`, since the `/page` suffix needs a slash before it |
| ReactAnalyzerJs.PageFileStripped | src/codeGraph/analyzers/reactAnalyzer.js:409-411 | `<dir>/page.tsx` for a folder path ending in `]` loses the extension and the `/page`, and the `/index` strip does not apply |
| ReactAnalyzerJs.DynamicPathNoCatchAll | src/codeGraph/analyzers/reactAnalyzer.js:412 | in `dir/[name]<tail>` no `[` is followed by `.`, so the catch-all form does not match |
| ReactAnalyzerJs.ParamPathClean | src/codeGraph/analyzers/reactAnalyzer.js:414-422 | `dir/:name<tail>` has no group, starts and ends without a slash, and doubles none, so the clean-up leaves it alone |
| ReactAnalyzerJs.DynamicPageRoute | src/codeGraph/analyzers/reactAnalyzer.js:408-424 | `dir/[name]<tail>/page.tsx` is routed `/dir/:name<tail>`: only the first dynamic segment is rewritten |
| ReactAnalyzerJs.SecondDynamicKept | src/codeGraph/analyzers/reactAnalyzer.js:413 | a second dynamic segment is a tail the route keeps as written, so `a/[x]/[y]` becomes `/a/:x/[y]` |
| ReactAnalyzerJs.FirstFile | src/codeGraph/analyzers/reactAnalyzer.js:301-309 | the result is the first candidate that is a file, every earlier candidate is not a file, and nothing is returned only when no candidate is a file |
| ReactAnalyzerJs.AppLayout | src/codeGraph/analyzers/reactAnalyzer.js:297-314 | a layout found by the walk is a file named `layout.tsx`, `layout.jsx` or `layout.js`, in the page's directory or one of its ancestors |
| ReactAnalyzerJs.FirstFileIsFirstExisting | src/codeGraph/analyzers/reactAnalyzer.js:301-309 | when no layout file name is taken by a directory, the first file among a directory's layout candidates is the first existing one |
| ReactAnalyzerJs.AppLayoutAgrees | src/codeGraph/analyzers/reactAnalyzer.js:295-315 | when no layout file name is taken by a directory, the JavaScript walk finds the layout the TypeScript walk finds |
| ReactAnalyzerJs.LayoutImportCandidates | src/codeGraph/analyzers/reactAnalyzer.js:328-341 | a layout import is tried as four paths, the resolved capture itself first |
| ReactAnalyzerJs.ImportedLayout | src/codeGraph/analyzers/reactAnalyzer.js:318-346 | a layout found through imports exists and is a candidate of some pattern's first match resolved against the page's directory; none is found only when no matching pattern has an existing candidate |
| ReactAnalyzerJs.LaterPattern | src/codeGraph/analyzers/reactAnalyzer.js:324-344 | a layout found through the remaining patterns is found through one of all the patterns |
| ReactAnalyzerJs.ParentLayoutsCapture | src/codeGraph/analyzers/reactAnalyzer.js:321 | `import X from '../layouts/Main'` is captured as the bare name `Main` by the third pattern |
| ReactAnalyzerJs.ResolvedStep | src/codeGraph/analyzers/reactAnalyzer.js:350-388 | the resolution of the next import specifier extends the resolved prefix towards the whole list |
| ReactAnalyzerJs.ScannedFrame | src/codeGraph/analyzers/reactAnalyzer.js:218-256 | what a scan of a directory records stays recorded in any map that agrees with it on the paths below that directory |
| ReactAnalyzerJs.SiblingKept | src/codeGraph/analyzers/reactAnalyzer.js:246-252 | the scan of one sub-directory, which changes only paths below it, keeps the recorded scan of a sibling |
| ReactAnalyzerJs.SubdirectoryStep | src/codeGraph/analyzers/reactAnalyzer.js:246-252 | the sub-directory loop's invariant, the earlier entries scanned and changes only deeper than the directory, survives the scan of the next entry |
| ReactAnalyzerJs.PagesDirStep | src/codeGraph/analyzers/reactAnalyzer.js:205-216 | the scans of the earlier page directories survive the scan of the next one, which changes only paths below it |
| ReactAnalyzerJs.ReactAnalyzer.constructor | src/codeGraph/analyzers/reactAnalyzer.js:5-11 | pages and layouts start empty and no project type is set |
| ReactAnalyzerJs.ReactAnalyzer.FindProjectRoot | src/codeGraph/analyzers/reactAnalyzer.js:393-402 | throws exactly for every path below the filesystem root, because `existsSync` is not a function of `fs/promises`; the root itself comes back unchanged |
| ReactAnalyzerJs.ReactAnalyzer.CreateFileNode | src/codeGraph/analyzers/reactAnalyzer.js:88-99 | throws exactly for a path below the root; at the root the node is the one the TypeScript analyzer builds |
| ReactAnalyzerJs.ReactAnalyzer.FindComponentDependencies | src/codeGraph/analyzers/reactAnalyzer.js:349-391 | throws exactly when some import is local and the file is not at the root; otherwise the dependency set is the TypeScript one |
| ReactAnalyzerJs.ReactAnalyzer.FindLayout | src/codeGraph/analyzers/reactAnalyzer.js:291-347 | the layout is the app-router walk's hit for a Next.js page in an app directory, else the import fallback; only a walk hit is recorded in the layouts, and pages and the project type are unchanged |
| ReactAnalyzerJs.ReactAnalyzer.FindLayoutFile | src/codeGraph/analyzers/reactAnalyzer.js:301-309 | one level of the walk returns the first layout candidate of the directory that is a file |
| ReactAnalyzerJs.ReactAnalyzer.FindImportedLayout | src/codeGraph/analyzers/reactAnalyzer.js:318-346 | the loop over the three import patterns returns the imported layout the specification function gives |
| ReactAnalyzerJs.ReactAnalyzer.ScanPageFile | src/codeGraph/analyzers/reactAnalyzer.js:223-243 | no page file leaves the maps alone; a page file is recorded, with its layout, dependencies, route and app-directory flag, exactly when it is a readable file whose imports do not throw |
| ReactAnalyzerJs.ReactAnalyzer.ScanPagesRecursively | src/codeGraph/analyzers/reactAnalyzer.js:218-256 | only keys below the scanned directory are added or changed; a scan that aborts leaves the pages unchanged, while the layout its page's lookup found may already be recorded; otherwise the directory's page file is recorded with its full page information; and `Scanned`: every page the scan reaches, in the directory and recursively in each sub-directory not starting with `_` or `.`, is recorded with its full page information |
| ReactAnalyzerJs.ReactAnalyzer.ScanSubdirectories | src/codeGraph/analyzers/reactAnalyzer.js:246-252 | the loop over entries only adds or changes pages strictly below the directory, keeps the maps growing, and leaves the scan of every entry it descends into recorded |
| ReactAnalyzerJs.ReactAnalyzer.ScanSubdirectory | src/codeGraph/analyzers/reactAnalyzer.js:246-251 | one entry: a sub-directory not starting with `_` or `.` is scanned with its extended route, the scans of the earlier entries stay recorded, and only pages strictly below the directory change |
| ReactAnalyzerJs.ReactAnalyzer.AnalyzePagesDirectory | src/codeGraph/analyzers/reactAnalyzer.js:205-216 | scanning the flavour's page directories only grows the pages and layouts, keeps the project type, and leaves the scan of every one of those directories recorded |
| ReactAnalyzerJs.ReactAnalyzer.ProcessFileDependencies | src/codeGraph/analyzers/reactAnalyzer.js:101-136 | the graph invariant is kept, the graph only grows, and every readable dependency ends up processed |
| ReactAnalyzerJs.ReactAnalyzer.ProcessDependency | src/codeGraph/analyzers/reactAnalyzer.js:102-134 | a processed or unreadable dependency changes nothing; a new readable one gets a component node and an `imports` link first; when its imports throw, those two are all that is added |
| ReactAnalyzerJs.ReactAnalyzer.AnalyzeReactProject | src/codeGraph/analyzers/reactAnalyzer.js:13-86 | the project type is the detected one; with none the graph is empty; with one the scan of every page directory of the flavour is recorded, and the call throws exactly when a layout or page was recorded, and otherwise yields only the application node (`Answered`) |
| ReactNativeAnalyzer.GroupTable | src/codeGraph/analyzers/reactNativeAnalyzer.ts:111-123 | navigation, screen and component get groups 1, 2, 3; 'application' (whose entry is 0) and every other kind get 4; a listed kind gets its radius and any other kind 10 |
| ReactNativeAnalyzer.FormatName | src/codeGraph/analyzers/reactNativeAnalyzer.ts:103-109 | a screen name loses one trailing 'Screen' and a navigator name one trailing 'Navigation' when they have it; every other name is unchanged |
| ReactNativeAnalyzer.TreeLinksAppend | src/codeGraph/analyzers/reactNativeAnalyzer.ts:80-85 | a new link adds itself to the structure links exactly when it is not a navigation route |
| ReactNativeAnalyzer.AddStep | src/codeGraph/analyzers/reactNativeAnalyzer.ts:67-86 | a new file node with one structure link to the application node, or one import link from an existing node, keeps the graph a tree with one node per path |
| ReactNativeAnalyzer.NavStep | src/codeGraph/analyzers/reactNativeAnalyzer.ts:132-137 | a navigation route from an existing node keeps the graph invariant |
| ReactNativeAnalyzer.ResolveImportPath | src/codeGraph/analyzers/reactNativeAnalyzer.ts:197-214 | the result is the first existing of the base plus '.tsx', '.ts', '.jsx', '.js', then the base's index files in that order, with '@/' based at 'src' under the project root |
| ReactNativeAnalyzer.ImportsOnlyTrans | src/codeGraph/analyzers/reactNativeAnalyzer.ts:161-174 | import-only growth of the graph composes across a recursive call |
| ReactNativeAnalyzer.ProcessDependencies | src/codeGraph/analyzers/reactNativeAnalyzer.ts:141-178 | the graph invariant is kept, every added link is an 'imports' link of value 1 and every added node a group-3 component, and processed files are never forgotten |
| ReactNativeAnalyzer.ProcessImport | src/codeGraph/analyzers/reactNativeAnalyzer.ts:148-176 | one import keeps the invariant, adds only import links and component nodes, and keeps the source node |
| ReactNativeAnalyzer.NavLinks | src/codeGraph/analyzers/reactNativeAnalyzer.ts:130-138 | one 'navigation-route' link of value 1 per declared screen, in order, from the navigator to the screen's name |
| ReactNativeAnalyzer.AnalyzeNavigation | src/codeGraph/analyzers/reactNativeAnalyzer.ts:125-139 | the links grow by exactly the navigator's routes and no node or processed file is added |
| ReactNativeAnalyzer.ScanFile | src/codeGraph/analyzers/reactNativeAnalyzer.ts:59-99 | a processed file changes nothing; otherwise the scan fails exactly when the file is unreadable, and a readable file gets its node and a '<type>-structure' link to the application node first |
| ReactNativeAnalyzer.ScanNewFile | src/codeGraph/analyzers/reactNativeAnalyzer.ts:64-99 | a file read for the first time gets its node and its structure link first, and the invariant is kept |
| ReactNativeAnalyzer.FollowFile | src/codeGraph/analyzers/reactNativeAnalyzer.ts:88-99 | following a file's imports and, for a navigator, its routes keeps the invariant and only grows the graph |
| ReactNativeAnalyzer.ScanDirectory | src/codeGraph/analyzers/reactNativeAnalyzer.ts:46-101 | the invariant is kept and the graph only grows; a path that is not a directory fails the scan and adds nothing |
| ReactNativeAnalyzer.ScanEntries | src/codeGraph/analyzers/reactNativeAnalyzer.ts:50-100 | the loop over a listing keeps the invariant and only grows the graph |
| ReactNativeAnalyzer.AnalyzeReactNativeProject | src/codeGraph/analyzers/reactNativeAnalyzer.ts:6-44 | on success the application node comes first, ids are unique, the structure and import links form a tree closed over the nodes, every structure link goes to the application node, every navigation route starts at a node, every file node is a path of the project, and every existing folder that was scanned is a directory |
| Extractors.DottedPrefix | src/codeGraph/dependencyAnalyzer.js:369 | what `\bimport\s+(\w+(?:\.\w+)*)` captures after the keyword, when anything, is a prefix of the text after it |
| Extractors.LayoutsCapture | src/codeGraph/analyzers/reactAnalyzer.js:319 | a capture of `[@\/\w-]+\/layouts\/(\w+)` is a word that the specifier ends with, after `/layouts/` and at least one more character |
| Extractors.Match | src/codeGraph/analyzers/reactAnalyzer.ts:261 | a pattern's capture on a statement, when it matches, is never empty, since every capture group is a `+` |
| Extractors.MatchAllMembers | src/codeGraph/analyzers/reactAnalyzer.ts:261-262 | a string is among the matches of a global pattern exactly when some statement yields it |
| Extractors.MatchFirst | src/codeGraph/analyzers/reactAnalyzer.js:325 | `String.prototype.match` yields the capture of the first matching statement, every earlier statement not matching, and nothing only when no statement matches |
| Extractors.AddAllSpec | src/codeGraph/analyzers/nextjsAnalyzer.ts:162-175 | adding to an insertion-ordered set keeps its elements distinct and in place, and its members are the old ones and the added ones |
| Extractors.DedupSpec | src/codeGraph/analyzers/nextjsAnalyzer.ts:162-175 | `new Set(xs)` holds each element of `xs` once and nothing else |
| Extractors.CollectDistinct | src/codeGraph/analyzers/nextjsAnalyzer.ts:169-174 | the `add` loop yields the distinct elements of the input in first-insertion order, and exactly those |
| Extractors.ExtractAppImports | src/codeGraph/analyzers/nextjsAnalyzer.ts:161-176 | the specifiers are distinct and are exactly the matches of the `from '@/…'`, `from '.…'` and `import '.…'` patterns, in that order; reactNativeAnalyzer.ts:180-195 is the same function |
| Extractors.KeepLocalMembers | src/codeGraph/analyzers/nodejsAnalyzer.ts:297-299 | the filter keeps exactly the specifiers that start with `.` or `/` |
| Extractors.FilterLocal | src/codeGraph/analyzers/nodejsAnalyzer.ts:297-299 | the loop keeps the local specifiers, in order |
| Extractors.ExtractNodeImports | src/codeGraph/analyzers/nodejsAnalyzer.ts:286-304 | the specifiers are distinct and local, and are exactly the local matches of the `require('…')`, `from '…'` and `import '…'` patterns |
| FileSystem.ReadDir | src/codeGraph/dependencyAnalyzer.ts:31-34 | a listing succeeds exactly on a directory, and gives each entry's name in order with `isDirectory()` true exactly for a sub-directory |
| FileSystem.ReadFile | src/codeGraph/dependencyAnalyzer.ts:82 | a read succeeds exactly on a file and gives its content |
| FileSystem.FirstExisting | src/codeGraph/analyzers/nextjsAnalyzer.ts:186-195 | the result is an existing candidate, and nothing is found only when no candidate exists |
| FileSystem.FirstIsFirst | src/codeGraph/analyzers/nextjsAnalyzer.ts:186-195 | when the i-th candidate exists, a candidate at or before position i is found |
| FileSystem.FirstExistingEarliest | src/codeGraph/analyzers/nextjsAnalyzer.ts:186-195 | every candidate before the one found is missing |
| FileSystem.ExtensionCandidates | src/codeGraph/analyzers/nextjsAnalyzer.ts:186-195 | the base with each extension, then `index` with each extension below the base, twice as many candidates as extensions |
| FileSystem.ExtensionPrecedence | src/codeGraph/analyzers/nextjsAnalyzer.ts:186-190 | when the base with the i-th extension exists, the result is the base with one of the first i + 1 extensions, never an index file |
| FileSystem.BareNeverTried | src/codeGraph/analyzers/nextjsAnalyzer.ts:186-195 | the import path itself, without an extension, is never the resolved file |
| FileSystem.Probe | src/codeGraph/analyzers/nextjsAnalyzer.ts:187-195 | the probing loop returns the first existing candidate |
| FileSystem.NearestManifestDir | src/codeGraph/analyzers/nextjsAnalyzer.ts:226-233 | the directory found is an ancestor of the start below the root holding a package.json, with none between it and the start; none is found only when no such directory holds one |
| FileSystem.FindProjectRoot | src/codeGraph/analyzers/nextjsAnalyzer.ts:226-233 | the walk returns the nearest directory holding a package.json, or the start path when there is none |
| Paths.Dirname | src/codeGraph/analyzers/nextjsAnalyzer.ts:179 | the parent drops the last segment, and the root is its own parent |
| Paths.PathString | src/codeGraph/dependencyAnalyzer.ts:228 | every absolute path string starts with `/` |
| Paths.Normalize | src/codeGraph/dependencyAnalyzer.ts:228 | normalising slash-free parts onto a clean path gives a clean path |
| Paths.Resolve | src/codeGraph/dependencyAnalyzer.ts:228 | resolving against a clean base gives a clean path |
| Paths.JoinSpec | src/codeGraph/analyzers/nodejsAnalyzer.ts:24-28 | joining onto a clean base gives a clean path |
| Paths.JoinSegment | src/codeGraph/dependencyAnalyzer.ts:33 | joining a plain entry name appends it as a segment |
| Paths.AddSuffix | src/codeGraph/analyzers/nextjsAnalyzer.ts:188 | appending an extension keeps the parent directory, and an empty one changes nothing |
| Paths.AddSuffixString | src/codeGraph/analyzers/nextjsAnalyzer.ts:188 | the path of `resolvedPath + ext` is the string concatenation |
| Paths.LastDot | src/codeGraph/dependencyAnalyzer.ts:191 | the position found holds the last `.` of the name, and none is found only for a name without `.` |
| Paths.ExtName | src/codeGraph/dependencyAnalyzer.ts:191 | `path.extname` is empty or a dot-led suffix of the name, shorter than the name, with no further dot |
| Paths.CommonPrefix | src/codeGraph/analyzers/nextjsAnalyzer.ts:201 | the length of the longest common leading run of segments of the two paths |
| Paths.RelativeToDescendant | src/codeGraph/analyzers/nextjsAnalyzer.ts:201 | the path relative to an ancestor is the remaining segments joined by `/` |
| Strings.FirstIndex | src/codeGraph/analyzers/nextjsAnalyzer.ts:203 | the position found holds the character and no earlier position does |
| Strings.Split | src/codeGraph/analyzers/nextjsAnalyzer.ts:203 | a split has at least one piece and no piece holds the separator |
| Strings.SplitJoin | src/codeGraph/analyzers/nextjsAnalyzer.ts:203-220 | splitting a join on a separator no piece holds gives the pieces back |
| Strings.JoinSplit | src/codeGraph/analyzers/nextjsAnalyzer.ts:203-220 | joining the pieces of a split on the same character gives the string back |
| Strings.StripSuffix | src/codeGraph/analyzers/reactNativeAnalyzer.ts:105-106 | `replace(/suffix$/, '')` removes one trailing suffix when present and otherwise changes nothing |
| Strings.TrimStart | src/codeGraph/analyzers/reactAnalyzer.js:420 | `replace(/^\/+/, '')` leaves a suffix of the string that does not start with `/` |
| Strings.TrimEnd | src/codeGraph/analyzers/reactAnalyzer.js:421 | `replace(/\/+$/, '')` leaves a prefix of the string that does not end with `/` |
| Strings.Collapse | src/codeGraph/analyzers/reactAnalyzer.js:422 | `replace(/\/+/g, '/')` leaves no doubled slash, is no longer than the string, and keeps its first and last characters |
| Strings.JoinNoDouble | src/codeGraph/analyzers/reactAnalyzer.ts:229 | joining non-empty slash-free segments on `/` never doubles a slash |
| Strings.CollapseIdentity | src/codeGraph/analyzers/reactAnalyzer.js:422 | collapsing a string without a doubled slash changes nothing |
| Graph.TreeClosed | src/codeGraph/types.ts:1-25 | in the shape the structural analyzers build, every link joins two nodes of the graph |
| Graph.TreeExtend | src/codeGraph/analyzers/nextjsAnalyzer.ts:141-146 | a new node with one link anchoring it to an existing node keeps the shape |
| Graph.StructureKind | src/codeGraph/analyzers/reactNativeAnalyzer.ts:84 | a '<type>-structure' link points up and is never a navigation route |
| Graph.Context.constructor | src/codeGraph/analyzers/reactNativeAnalyzer.ts:15-17 | the accumulator starts with the application node only, no link and no processed file |
| Graph.Context.AddNode | src/codeGraph/analyzers/reactNativeAnalyzer.ts:76 | `nodes.push` appends the node and nothing else changes |
| Graph.Context.AddLink | src/codeGraph/analyzers/reactNativeAnalyzer.ts:80-85 | `links.push` appends the link and nothing else changes |
| Graph.Context.MarkProcessed | src/codeGraph/analyzers/reactNativeAnalyzer.ts:77 | `processedFiles.add` adds the path and nothing else changes |
| LookupTables.OrDefault | src/codeGraph/analyzers/reactNativeAnalyzer.ts:115 | the or-default on a table entry is the entry when present and non-zero, and the fallback otherwise, a 0 entry included |
| OrderedMaps.Put | src/codeGraph/analyzers/reactAnalyzer.ts:210 | `map.set` stores the value; a new key goes last and an existing key keeps its place |
| OrderedMaps.Values | src/codeGraph/analyzers/reactAnalyzer.ts:31 | iteration gives the value of each key in insertion order |
| OrderedMaps.PutGrown | src/codeGraph/analyzers/reactAnalyzer.ts:210 | a `set` keeps every old key in its place |
| Cancellation.CancellationToken.constructor | src/codeGraph/dependencyAnalyzer.ts:21 | a token fixes after how many reads its flag is seen set, and has not been read yet |
| Cancellation.CancellationToken.IsCancellationRequested | src/codeGraph/dependencyAnalyzer.ts:30 | each read is counted; it answers true exactly once the fixed number of reads has passed, and stays true once it has been |
| Cancellation.Cancelled | src/codeGraph/dependencyAnalyzer.ts:30 | `token?.isCancellationRequested` is false for a missing token, and otherwise is one read of the token |

## Left out

- Regular expressions are not interpreted character by character. A file's content is its text plus a sequence of statements. Each pattern is a function that yields the capture of one statement. The line-spanning and greedy corner cases of the real expressions are not modelled.
- `JSON.parse` is not modelled: a file carries its manifest, or nothing when it would not parse.
- Node's `path` is modelled for POSIX absolute paths only. The Windows `\` branches and `path.sep` on Windows are not modelled.
- The `path` field of the generic nodes is not modelled. It is `path.relative(process.cwd(), file)` and depends on the process's working directory.
- `calculateNodeSize` uses floating-point `Math.log2`, which is a parameter of `DependencyAnalyzer.NodeSize`. Only the clamp to [8, 20] is proved.
- Concurrency is not modelled. `Promise.all` over the file reads is a sequential loop in input order, and the code consumes the results in that order.
- The other party that sets a cancellation token is not modelled. The moment it is set is fixed as the number of reads it answers `false`.
- Console logging is left out; it has no effect on the results.
- The `vscode` API is left out. The workspace root, the ignore list and the cancellation token are parameters.
- `localeCompare` in the printer's sort is replaced by code-unit order. Locale collation is not available.
- `src/codeGraph/analyzers/nodejsAnalyzer.js` is represented only by its outcome, the lone application node. Its `fileExists` and `findProjectRoot` are empty stubs.
- `nextjsAnalyzer.js` and `reactNativeAnalyzer.js` are not modelled separately. The first has the same logic as its TypeScript file. The second differs only in computing the `@/` base through `findProjectRoot`.
- `src/minimalRepoStructure.js` is not part of this model. It is the older printer.
- `graphTemplate`, `extension`, `repoPreview`, `repoStructure`, `utils/common` and the `config`/`styles` tables are not part of this model. They are rendering and editor glue. `FrameworkConfig` keeps only the `frameworkDirs` names.
- `analyzeLayoutsDirectory` and `getFiles` of `reactAnalyzer.js` are not modelled: nothing in that file calls them.
- `getProjectDirs`' `layoutsDir` and `componentsDir` are not modelled: only `pagesDir` is read.
- `findProjectRoot` and `extractImports` of `reactNativeAnalyzer.ts` are not modelled separately. `findProjectRoot` is never called there, and `extractImports` is `Extractors.ExtractAppImports`.
- `getRouteName` of `reactAnalyzer.js` is modelled and proved although nothing in that file calls it.
- NextjsAnalyzer.ScanAppDirectory: states the graph invariant and growth rather than the exact node list of the walk.
- NextjsAnalyzer.ProcessDependencies: states the graph invariant and the kind of what is added rather than the exact set of files reached.
- NodejsAnalyzer.ScanDirectory: states the graph invariant and growth rather than the exact node list of the walk.
- NodejsAnalyzer.ProcessDependencies: states the graph invariant and the kind of what is added rather than the exact set of files reached.
- ReactAnalyzer.ReactAnalyzer.ProcessFileDependencies: states the invariant, growth and that every readable dependency is processed, not the exact node order.
- ReactAnalyzerJs.ReactAnalyzer.ProcessFileDependencies: states the invariant, growth and that every readable dependency is processed, not the exact node order.
- ReactAnalyzerJs.ReactAnalyzer.AnalyzePagesDirectory: states that every page the scans reach is recorded and that the maps grow, not the order in which the pages enter the map.
- ReactAnalyzerJs.ReactAnalyzer.ScanSubdirectories: states where pages may be added and that each entry's scan is recorded, not the order in which the pages enter the map.
- ReactNativeAnalyzer.ScanDirectory: states the graph invariant and growth rather than the exact node list of the walk.
- ReactNativeAnalyzer.ScanEntries: states the graph invariant and growth rather than the exact node list of the walk.
- ReactNativeAnalyzer.ProcessDependencies: states the graph invariant and the kind of what is added rather than the exact set of files reached.
- ReactNativeAnalyzer.AnalyzeReactNativeProject: states the shape of the graph (application node first, unique ids, a closed tree of structure and import links) rather than its exact node list.
- DependencyAnalyzer.ProjectsBelow: a marker is one of the ten own keys of `projectMarkers`. A file named after an inherited `Object.prototype` key (`constructor`, `toString`, …) passes the test at `dependencyAnalyzer.ts:38` and makes a project with a function-valued type there. The model follows the corrected lookup; `ConstructorFileMarks` shows the as-written test (see Findings).
- DependencyAnalyzer.ProjectsAt: the same inherited-key marker files are not projects here.
- DependencyAnalyzer.ScanDir: exact against `ProjectsIn`, which leaves out the inherited-key marker files.
- DependencyAnalyzer.ScanEntries: exact against `ProjectsIn`, which leaves out the inherited-key marker files.
- DependencyAnalyzer.DetectProjects: the project list leaves out the inherited-key marker files, and so do `projects`, `NearestRoot` and `findProjectRoot` after it.
- DependencyAnalyzerJs.ProjectsBelow: the JavaScript marker test (`dependencyAnalyzer.js:49`) has the same inherited-key gap.
- DependencyAnalyzerJs.ScanDir: leaves out the inherited-key marker files.
- DependencyAnalyzerJs.ScanEntries: leaves out the inherited-key marker files.
- DependencyAnalyzerJs.ScanEntry: leaves out the inherited-key marker files.
- DependencyAnalyzerJs.DetectProjects: leaves out the inherited-key marker files.
- DependencyAnalyzerJs.MarkerTypesNamed: covers the ten own marker types only. An inherited-key marker's function-valued type is not modelled.
- Structures.GroupAndRadius: states the corrected lookup. For a type named after an inherited `Object.prototype` key, `groups[type]` and `sizes[type]` return that inherited function instead of the fallbacks 6 and 10. `InheritedKindLooks` shows this (see Findings).
- DependencyAnalyzer.RecordDeps: files its entries with the corrected `findStyleImports`. The TypeScript one throws on an empty `@import ''` or `url('')` (see Findings).
- DependencyAnalyzer.DependencyAnalyzer.ComputeOne: uses the corrected style finder, so a file holding `@import ''` or `url('')` gets its entry instead of throwing.
- DependencyAnalyzer.DependencyAnalyzer.ComputeDependencies: uses the corrected style finder; the uncaught throw from such a file is not modelled.
- DependencyAnalyzer.DependencyAnalyzer.AnalyzeFiles: uses the corrected style finder; the uncaught throw from such a file is not modelled.
- DependencyAnalyzer.DependencyAnalyzer.AnalyzeDependencies: "succeeds exactly on a directory" holds for the corrected style finder. As written, a workspace file holding `@import ''` or `url('')` makes `analyzeDependencies` reject.
- NodejsAnalyzer.ResolveImportPath: `Paths.JoinSpec` drops a trailing `/`, while Node's `path.join` keeps it. So for `require('/lib/')` the source tries `<root>/lib/.ts`, `.js`, `.json`, and the model tries `<root>/lib.ts`.
- NextjsAnalyzer.AnalyzeNextProject: states that a walk root that is not a directory rejects and that a walk meeting no failing read succeeds. It does not state that every other rejection comes from a failing read.
- NextjsAnalyzer.WalkSubdirectories: states the graph invariant, growth and success rather than the exact node list of the walk.
- NextjsAnalyzer.ProcessImport: states the graph invariant and the kind of what is added rather than the exact set of files reached.
- NodejsAnalyzer.ScanEntries: states the graph invariant, growth and success rather than the exact node list of the walk.
- NodejsAnalyzer.FollowFile: states the graph invariant and growth rather than the exact nodes a file's imports and endpoints add.
- NodejsAnalyzer.ProcessImport: states the graph invariant and that only imports are added rather than the exact set of files reached.
- ReactNativeAnalyzer.ProcessImport: states the graph invariant and the kind of what is added rather than the exact set of files reached.
- ReactNativeAnalyzer.FollowFile: states the graph invariant and growth rather than the exact nodes a file's imports and routes add.
- ReactAnalyzer.ReactAnalyzer.EmitLayouts: states that every recorded layout gets a node, not that the layouts come in the map's order.
- ReactAnalyzer.ReactAnalyzer.EmitPages: states that each page node is linked by the `PageLink` of a recorded page whose path string is the node's id. Path strings join segments with `/`, so two distinct recorded paths could in principle share one; `OwnPageLink` gives the page's own `PageLink` when they do not. It does not state that all pages come after all layouts.
- ReactAnalyzer.ReactAnalyzer.AnalyzeReactProject: states the shape, that each link is structural, each page node's `PageLink` (with the path-string caveat of `EmitPages`) and that every layout and page has a node. It does not state the order: the application node, then the layouts, then the pages, each followed by its components.
- Structures.DependencyTree.ToGraphData: states that every node reachable from the root is emitted once, below an earlier parent. It does not state that the order is exactly the depth-first preorder over `childKeys`.
- Structures.DependencyTree.Visit: states the closure and the parent rule for what it emits, not the exact preorder.
- Structures.DependencyTree.WalkChildren: states the closure and the parent rule for what it emits, not the exact preorder.

## Findings

| source | as written | input that shows it | evidently intended | confidence | as-written member | corrected member |
|---|---|---|---|---|---|---|
| src/codeGraph/dependencyAnalyzer.ts:177 | `m[0].match(/['"]([^'"]+)['"]/)![1]` reads the capture of a second expression that needs a non-empty body, after an outer pattern that accepts an empty one | a workspace file containing `url('')` or `@import ''`: the inner match is `null`, reading `[1]` throws, and the loop at lines 94-103 lets `analyzeDependencies` reject | skip the empty specifier, as `dependencyAnalyzer.js:360-361` does with `url ? url[1] : null` | not executed | DependencyAnalyzer.StyleImportsAsWritten, DependencyAnalyzer.EmptyUrlThrows | DependencyAnalyzer.StyleImportsOf, DependencyAnalyzer.StyleImportsMembers |
| src/codeGraph/dependencyAnalyzer.ts:38 | `projectMarkers[entry.name]` on a plain object literal also finds inherited `Object.prototype` members | a file named `constructor` in the workspace: its directory becomes a project whose type is the `Object` function | look up own keys only | not executed | DependencyAnalyzer.MarkerAsWritten, DependencyAnalyzer.ConstructorFileMarks | DependencyAnalyzer.MarkerType, DependencyAnalyzer.MarkersShareOnlyJava |
| src/codeGraph/structures/DependencyTree.js:100 | `groups[type]` before its fallback 6, and `sizes[type]` before its fallback 10, also find inherited members of the plain object literals | a node of type `constructor`: its group and radius are the `Object` function, not 6 and 10 | look up own keys only | not executed | LookupTables.OrDefaultAsWritten, Structures.InheritedKindLooks | Structures.NodeGroup, Structures.GroupAndRadius |
