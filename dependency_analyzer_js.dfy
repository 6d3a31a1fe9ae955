/**
 * The JavaScript build of `DependencyAnalyzer` (dependencyAnalyzer.js). It
 * follows the same plan as the TypeScript one and differs in what it does
 * at each step:
 * - its project scan also walks `node_modules` and `.git`;
 * - a Node project goes to the analyzer picked by three probes of the
 *   workspace (backend, Next.js, React Native), not by one dependency each;
 * - `getAllFiles` keeps only paths `isValidFilePath` accepts, and it accepts
 *   no absolute path, so the generic graph never gains a file;
 * - `findProjectRoot` always answers the file's own directory;
 * - custom imports (Python, Java, PHP) join the specifiers, and specifiers
 *   that are not relative resolve against the project root;
 * - a cancelled token makes the analysis answer `undefined`.
 */
module DependencyAnalyzerJs {
  import opened Wrappers
  import opened Strings
  import opened Paths
  import opened SourceText
  import opened FileSystem
  import opened Graph
  import opened Extractors
  import opened OrderedMaps
  import opened Cancellation
  import Sequences
  import DA = DependencyAnalyzer
  import NextjsAnalyzer
  import NodejsAnalyzer
  import ReactNativeAnalyzer
  import RJ = ReactAnalyzerJs

  // ------------------------------------------------------------ detection

  /** `scanDir(dir)` run to the end: every marker file below `dir`, in walk order, no directory passed over. */
  function ProjectsBelow(fs: FS, dir: Path): (r: seq<DA.Project>)
    requires IsDirectory(fs, dir)
    ensures forall p :: p in r ==> DA.Genuine(fs, p)
    decreases Height(fs, dir), 1
  {
    ProjectsIn(fs, dir, fs[dir].names)
  }

  function ProjectsIn(fs: FS, dir: Path, names: seq<string>): (r: seq<DA.Project>)
    requires IsDirectory(fs, dir)
    ensures forall p :: p in r ==> DA.Genuine(fs, p)
    decreases Height(fs, dir), 0, |names|
  {
    if names == [] then [] else ProjectsAt(fs, dir, names[0]) + ProjectsIn(fs, dir, names[1..])
  }

  /** What one entry adds: a sub-directory's projects, or the project its marker names. */
  function ProjectsAt(fs: FS, dir: Path, name: string): (r: seq<DA.Project>)
    requires IsDirectory(fs, dir)
    ensures forall p :: p in r ==> DA.Genuine(fs, p)
    decreases Height(fs, dir), 0, 0
  {
    var full := dir + [name];
    assert IsDirectory(fs, full) ==> |full| <= Depth(fs);
    if IsDirectory(fs, full) then ProjectsBelow(fs, full)
    else if DA.MarkerType(name).Some? then [DA.Project(DA.MarkerType(name).value, dir, full)]
    else []
  }

  /** Every project the TypeScript scan reports, this scan reports too. */
  lemma {:induction false} FindsTsProjects(fs: FS, dir: Path)
    requires IsDirectory(fs, dir)
    ensures forall p :: p in DA.ProjectsBelow(fs, dir) ==> p in ProjectsBelow(fs, dir)
    decreases Height(fs, dir), 1
  {
    FindsTsProjectsIn(fs, dir, fs[dir].names);
  }

  lemma {:induction false} FindsTsProjectsIn(fs: FS, dir: Path, names: seq<string>)
    requires IsDirectory(fs, dir)
    ensures forall p :: p in DA.ProjectsIn(fs, dir, names) ==> p in ProjectsIn(fs, dir, names)
    decreases Height(fs, dir), 0, |names|
  {
    if names != [] {
      FindsTsProjectsAt(fs, dir, names[0]);
      FindsTsProjectsIn(fs, dir, names[1..]);
    }
  }

  lemma {:induction false} FindsTsProjectsAt(fs: FS, dir: Path, name: string)
    requires IsDirectory(fs, dir)
    ensures forall p :: p in DA.ProjectsAt(fs, dir, name) ==> p in ProjectsAt(fs, dir, name)
    decreases Height(fs, dir), 0, 0
  {
    var full := dir + [name];
    if IsDirectory(fs, full) && !DA.Unscanned(name) {
      assert |full| <= Depth(fs);
      FindsTsProjects(fs, full);
    }
  }

  /** A package.json inside `node_modules` is a project here and not in the TypeScript scan. */
  lemma NodeModulesScanned()
    ensures var manifest := ["node_modules", "package.json"];
      var fs: FS := map[[] := Dir(["node_modules"]), ["node_modules"] := Dir(["package.json"]), manifest := File(Content("{}", [], None))];
      ProjectsBelow(fs, []) == [DA.Project("node", ["node_modules"], manifest)] && DA.ProjectsBelow(fs, []) == []
  {
    var manifest := ["node_modules", "package.json"];
    var fs: FS := map[[] := Dir(["node_modules"]), ["node_modules"] := Dir(["package.json"]), manifest := File(Content("{}", [], None))];
    var project := DA.Project("node", ["node_modules"], manifest);
    assert ["node_modules"][1..] == [] && ["package.json"][1..] == [];
    assert [] + ["node_modules"] == ["node_modules"] && ["node_modules"] + ["package.json"] == manifest;
    assert IsDirectory(fs, []) && fs[[]].names == ["node_modules"];
    assert IsDirectory(fs, ["node_modules"]) && fs[["node_modules"]].names == ["package.json"];
    assert !IsDirectory(fs, manifest) && DA.MarkerType("package.json") == Some("node");
    assert ProjectsAt(fs, ["node_modules"], "package.json") == [project];
    assert ProjectsIn(fs, ["node_modules"], ["package.json"]) == [project] + ProjectsIn(fs, ["node_modules"], []);
    assert ProjectsBelow(fs, ["node_modules"]) == [project];
    assert ProjectsAt(fs, [], "node_modules") == [project];
    assert ProjectsIn(fs, [], ["node_modules"]) == [project] + ProjectsIn(fs, [], []);
    assert DA.Unscanned("node_modules");
    assert DA.ProjectsAt(fs, [], "node_modules") == [];
    assert DA.ProjectsIn(fs, [], ["node_modules"]) == [] + DA.ProjectsIn(fs, [], []);
  }

  /**
   * `scanDir`: one read of the token on entry (a cancelled read ends only
   * this call), then the listing, whose failure rejects the whole detection.
   */
  method ScanDir(fs: FS, token: CancellationToken?, dir: Path, acc: seq<DA.Project>) returns (r: Result<seq<DA.Project>, IoError>)
    modifies token
    ensures token != null ==> token.polls >= old(token.polls)
    ensures old(Raised(token)) ==> r == Ok(acc)
    ensures Quiet(token) ==> r == (if IsDirectory(fs, dir) then Ok(acc + ProjectsBelow(fs, dir)) else Err(ReadDir(fs, dir).error))
    ensures r.Err? ==> !IsDirectory(fs, dir)
    ensures r.Ok? ==> |r.value| >= |acc| && r.value[..|acc|] == acc && forall p :: p in r.value[|acc|..] ==> DA.Genuine(fs, p)
    decreases Height(fs, dir), 2
  {
    var stop := Cancelled(token);
    if stop {
      return Ok(acc);
    }
    match ReadDir(fs, dir)
    case Err(e) =>
      return Err(e);
    case Ok(entries) =>
      var ps := ScanEntries(fs, token, dir, entries, acc);
      return Ok(ps);
  }

  /** The entries of one listing, in order: every sub-directory walked, marker files recorded. */
  method ScanEntries(fs: FS, token: CancellationToken?, dir: Path, entries: seq<Dirent>, acc: seq<DA.Project>) returns (ps: seq<DA.Project>)
    requires ReadDir(fs, dir) == Ok(entries)
    modifies token
    ensures token != null ==> token.polls >= old(token.polls)
    ensures Quiet(token) ==> ps == acc + ProjectsIn(fs, dir, fs[dir].names)
    ensures |ps| >= |acc| && ps[..|acc|] == acc && forall p :: p in ps[|acc|..] ==> DA.Genuine(fs, p)
    decreases Height(fs, dir), 1
  {
    ghost var names := fs[dir].names;
    ps := acc;
    var i := 0;
    while i < |entries|
      invariant 0 <= i <= |entries|
      invariant token != null ==> token.polls >= old(token.polls)
      invariant Quiet(token) ==> ps + ProjectsIn(fs, dir, names[i..]) == acc + ProjectsIn(fs, dir, names)
      invariant |ps| >= |acc| && ps[..|acc|] == acc && forall p :: p in ps[|acc|..] ==> DA.Genuine(fs, p)
    {
      ghost var before := ps;
      assert ProjectsIn(fs, dir, names[i..]) == ProjectsAt(fs, dir, names[i]) + ProjectsIn(fs, dir, names[i + 1..]) by {
        assert names[i..][0] == names[i] && names[i..][1..] == names[i + 1..];
      }
      ps := ScanEntry(fs, token, dir, entries[i], ps);
      DA.KeptGenuine(fs, acc, before, ps);
      if Quiet(token) {
        Sequences.ConcatStep(before, ProjectsIn(fs, dir, names[i..]), ProjectsAt(fs, dir, names[i]), ProjectsIn(fs, dir, names[i + 1..]), acc + ProjectsIn(fs, dir, names));
      }
      i := i + 1;
    }
    assert names[|entries|..] == [];
  }

  /** One entry of a listing: a sub-directory is walked, a marker file recorded. */
  method ScanEntry(fs: FS, token: CancellationToken?, dir: Path, entry: Dirent, ps: seq<DA.Project>) returns (r: seq<DA.Project>)
    requires IsDirectory(fs, dir) && (entry.isDir <==> IsDirectory(fs, dir + [entry.name]))
    modifies token
    ensures token != null ==> token.polls >= old(token.polls)
    ensures Quiet(token) ==> r == ps + ProjectsAt(fs, dir, entry.name)
    ensures |r| >= |ps| && r[..|ps|] == ps && forall p :: p in r[|ps|..] ==> DA.Genuine(fs, p)
    decreases Height(fs, dir), 0, 0
  {
    var full := dir + [entry.name];
    r := ps;
    if entry.isDir {
      assert |full| <= Depth(fs);
      var sub := ScanDir(fs, token, full, ps);
      r := sub.value;
    } else if DA.MarkerType(entry.name).Some? {
      var project := DA.Project(DA.MarkerType(entry.name).value, dir, full);
      assert Basename(full) == entry.name;
      r := ps + [project];
      assert r[|ps|..] == [project];
    }
  }

  /** `detectProjects`: the projects below the workspace root. */
  method DetectProjects(fs: FS, rootPath: Path, token: CancellationToken?) returns (r: Result<seq<DA.Project>, IoError>)
    modifies token
    ensures token != null ==> token.polls >= old(token.polls)
    ensures old(Raised(token)) ==> r == Ok([])
    ensures Quiet(token) ==> r == (if IsDirectory(fs, rootPath) then Ok(ProjectsBelow(fs, rootPath)) else Err(ReadDir(fs, rootPath).error))
    ensures r.Err? ==> !IsDirectory(fs, rootPath)
    ensures r.Ok? ==> forall p :: p in r.value ==> DA.Genuine(fs, p)
  {
    r := ScanDir(fs, token, rootPath, []);
    if r.Ok? {
      assert r.value[0..] == r.value;
    }
  }

  // ------------------------------------------------------------ choosing an analyzer

  /** package.json of `root` as JSON, `None` when it cannot be read or parsed. */
  function PackageManifest(fs: FS, root: Path): Option<Manifest> {
    match ReadFile(fs, root + ["package.json"])
    case Err(_) => None
    case Ok(c) => c.manifest
  }

  /** `isNextJsProject` run to the end: a `next` dependency and either src/app or next.config.js. */
  predicate NextJsProject(fs: FS, root: Path) {
    var m := PackageManifest(fs, root);
    m.Some? && "next" in m.value.dependencies && (Exists(fs, root + ["src", "app"]) || Exists(fs, root + ["next.config.js"]))
  }

  /** `isReactNativeProject` run to the end: a `react-native` dependency and app.json. */
  predicate ReactNativeProject(fs: FS, root: Path) {
    var m := PackageManifest(fs, root);
    m.Some? && "react-native" in m.value.dependencies && Exists(fs, root + ["app.json"])
  }

  /** The folders `hasBackendFolders` looks for. */
  const BackendFolders: seq<string> := ["routes", "controllers", "models", "middleware"]

  /** One of the backend folders exists under `root` or under `root/src`. */
  predicate BackendLayout(fs: FS, root: Path) {
    exists i :: 0 <= i < |BackendFolders| && (Exists(fs, root + [BackendFolders[i]]) || Exists(fs, root + ["src", BackendFolders[i]]))
  }

  /** `isNodejsBackendProject` run to the end: Express, and nodemon as a dependency of either kind or a backend layout. */
  predicate NodejsBackendProject(fs: FS, root: Path) {
    var m := PackageManifest(fs, root);
    m.Some? && "express" in m.value.dependencies &&
    ("nodemon" in m.value.dependencies || "nodemon" in m.value.devDependencies || BackendLayout(fs, root))
  }

  /** The branch `analyzeDependencies` takes for a Node project given its three probes. */
  function Decide(isNodeBackend: bool, isNextJs: bool, isReactNative: bool): (r: DA.Choice)
    ensures r == DA.NodeBackend <==> isNodeBackend
    ensures r == DA.NextApp <==> !isNodeBackend && isNextJs
    ensures r == DA.ReactNativeApp <==> !isNodeBackend && !isNextJs && isReactNative
    ensures r == DA.ReactApp <==> !isNodeBackend && !isNextJs && !isReactNative
  {
    if isNodeBackend then DA.NodeBackend
    else if isNextJs then DA.NextApp
    else if isReactNative then DA.ReactNativeApp
    else DA.ReactApp
  }

  /** The analyzer a Node project goes to when no probe is cancelled. */
  function ChooseAnalyzer(fs: FS, root: Path): DA.Choice {
    Decide(NodejsBackendProject(fs, root), NextJsProject(fs, root), ReactNativeProject(fs, root))
  }

  /** The backend probe comes first, then Next.js, then React Native; React is the fallback. */
  lemma ChooseAnalyzerSpec(fs: FS, root: Path)
    ensures ChooseAnalyzer(fs, root) == DA.NodeBackend <==> NodejsBackendProject(fs, root)
    ensures ChooseAnalyzer(fs, root) == DA.NextApp <==> NextJsProject(fs, root) && !NodejsBackendProject(fs, root)
    ensures ChooseAnalyzer(fs, root) == DA.ReactNativeApp <==>
      ReactNativeProject(fs, root) && !NextJsProject(fs, root) && !NodejsBackendProject(fs, root)
    ensures ChooseAnalyzer(fs, root) == DA.ReactApp <==>
      !NodejsBackendProject(fs, root) && !NextJsProject(fs, root) && !ReactNativeProject(fs, root)
  {
  }

  /**
   * The two builds part ways on an Express project with neither nodemon nor
   * a backend layout: the TypeScript build sends it to the Node analyzer,
   * this one to whatever the other probes say, React when they say nothing.
   */
  lemma ExpressAloneDiffers(fs: FS, root: Path)
    requires DA.DependsOn(fs, root, "express")
    requires !NodejsBackendProject(fs, root) && !NextJsProject(fs, root) && !ReactNativeProject(fs, root)
    ensures DA.ChooseAnalyzer(fs, root) == DA.NodeBackend && ChooseAnalyzer(fs, root) == DA.ReactApp
  {
  }

  /** `isNextJsProject`: one read of the token, then package.json and two probes; any failure answers false. */
  method IsNextJsProject(fs: FS, root: Path, token: CancellationToken?) returns (b: bool)
    modifies token
    ensures token != null ==> token.polls == old(token.polls) + 1
    ensures b <==> !old(Raised(token)) && NextJsProject(fs, root)
  {
    var stop := Cancelled(token);
    if stop {
      return false;
    }
    match ReadFile(fs, root + ["package.json"]) {
      case Err(_) =>
        return false;
      case Ok(c) =>
        match c.manifest {
          case None =>
            return false;
          case Some(m) =>
            var hasNextDep := "next" in m.dependencies;
            var hasAppDir := Exists(fs, root + ["src", "app"]);
            var hasNextConfig := Exists(fs, root + ["next.config.js"]);
            return hasNextDep && (hasAppDir || hasNextConfig);
        }
    }
  }

  /** `isReactNativeProject`: one read of the token, then package.json and app.json. */
  method IsReactNativeProject(fs: FS, root: Path, token: CancellationToken?) returns (b: bool)
    modifies token
    ensures token != null ==> token.polls == old(token.polls) + 1
    ensures b <==> !old(Raised(token)) && ReactNativeProject(fs, root)
  {
    var stop := Cancelled(token);
    if stop {
      return false;
    }
    match ReadFile(fs, root + ["package.json"]) {
      case Err(_) =>
        return false;
      case Ok(c) =>
        match c.manifest {
          case None =>
            return false;
          case Some(m) =>
            var hasRNDep := "react-native" in m.dependencies;
            var hasAppJson := Exists(fs, root + ["app.json"]);
            return hasRNDep && hasAppJson;
        }
    }
  }

  /** `hasBackendFolders`: one read of the token per folder tried; the first folder found answers true. */
  method HasBackendFolders(fs: FS, root: Path, token: CancellationToken?) returns (b: bool)
    modifies token
    ensures token != null ==> token.polls >= old(token.polls)
    ensures b ==> BackendLayout(fs, root)
    ensures Quiet(token) ==> (b <==> BackendLayout(fs, root))
    ensures old(Raised(token)) ==> !b
  {
    var srcDir := root + ["src"];
    var i := 0;
    while i < |BackendFolders|
      invariant 0 <= i <= |BackendFolders|
      invariant token != null ==> token.polls >= old(token.polls)
      invariant forall j :: 0 <= j < i ==> !Exists(fs, root + [BackendFolders[j]]) && !Exists(fs, root + ["src", BackendFolders[j]])
      invariant old(Raised(token)) ==> i == 0
    {
      var stop := Cancelled(token);
      if stop {
        return false;
      }
      var folder := BackendFolders[i];
      assert srcDir + [folder] == root + ["src", folder];
      if Exists(fs, root + [folder]) || Exists(fs, srcDir + [folder]) {
        return true;
      }
      i := i + 1;
    }
    return false;
  }

  /** `isNodejsBackendProject`: one read of the token, package.json, then `hasBackendFolders` whatever the dependencies say. */
  method IsNodejsBackendProject(fs: FS, root: Path, token: CancellationToken?) returns (b: bool)
    modifies token
    ensures token != null ==> token.polls >= old(token.polls)
    ensures b ==> NodejsBackendProject(fs, root)
    ensures Quiet(token) ==> (b <==> NodejsBackendProject(fs, root))
    ensures old(Raised(token)) ==> !b
  {
    var stop := Cancelled(token);
    if stop {
      return false;
    }
    match ReadFile(fs, root + ["package.json"]) {
      case Err(_) =>
        return false;
      case Ok(c) =>
        match c.manifest {
          case None =>
            return false;
          case Some(m) =>
            var hasExpress := "express" in m.dependencies;
            var hasNodemon := "nodemon" in m.dependencies || "nodemon" in m.devDependencies;
            var hasFolderStructure := HasBackendFolders(fs, root, token);
            return hasExpress && (hasNodemon || hasFolderStructure);
        }
    }
  }

  /**
   * What `analyzeNodeProject` of nodejsAnalyzer.js yields: its `fileExists`
   * and `scanDirectory` are empty stubs, so no main file and no folder is
   * found, and the application node stays alone.
   */
  function NodeBackendGraph(): GraphData {
    GraphData([NodejsAnalyzer.AppNode()], [])
  }

  /** `getProjectType`: the display name of a project type. */
  function GetProjectType(kind: string): (r: string)
    ensures r == "Unknown" <==> kind !in {"node", "php", "java", "python", "go", "rust", "elixir", "dart", "ruby"}
  {
    if kind == "node" then "Node.js"
    else if kind == "php" then "PHP"
    else if kind == "java" then "Java"
    else if kind == "python" then "Python"
    else if kind == "go" then "Go"
    else if kind == "rust" then "Rust"
    else if kind == "elixir" then "Elixir"
    else if kind == "dart" then "Dart"
    else if kind == "ruby" then "Ruby"
    else "Unknown"
  }

  /** Every type a marker gives has a display name. */
  lemma MarkerTypesNamed(name: string)
    requires DA.MarkerType(name).Some?
    ensures GetProjectType(DA.MarkerType(name).value) != "Unknown"
  {
  }

  // ------------------------------------------------------------ source files

  /** `isValidFilePath`: no `..` anywhere and no leading `/`. */
  predicate IsValidFilePath(filePath: string) {
    !Contains(filePath, "..") && !StartsWith(filePath, "/")
  }

  /** A path built by `path.join` from an absolute directory is absolute, so it is never valid. */
  lemma AbsoluteInvalid(p: Path)
    ensures !IsValidFilePath(PathString(p))
  {
    var s := PathString(p);
    assert s[..1] == "/";
  }

  /**
   * `getAllFiles`: the walk of the TypeScript build (one read of the token
   * per entry, skipped names, source-file names), except that a file is
   * kept only when `isValidFilePath` accepts its path, which it never does.
   */
  method GetAllFiles(fs: FS, dir: Path, ignore: seq<string>, token: CancellationToken?) returns (files: seq<Path>)
    modifies token
    ensures token != null ==> token.polls >= old(token.polls)
    ensures files == []
    decreases Height(fs, dir)
  {
    files := [];
    match ReadDir(fs, dir) {
      case Err(_) =>
      case Ok(entries) =>
        var i := 0;
        while i < |entries|
          invariant 0 <= i <= |entries|
          invariant token != null ==> token.polls >= old(token.polls)
          invariant files == []
        {
          var stop := Cancelled(token);
          if stop {
            return [];
          }
          var entry := entries[i];
          if !DA.Skipped(entry.name, ignore) {
            var full := dir + [entry.name];
            if entry.isDir {
              assert |full| <= Depth(fs);
              var sub := GetAllFiles(fs, full, ignore, token);
              files := files + sub;
            } else if DA.SourceFileName(entry.name) {
              AbsoluteInvalid(full);
              if IsValidFilePath(PathString(full)) {
                files := files + [full];
              }
            }
          }
          i := i + 1;
        }
    }
  }

  // ------------------------------------------------------------ specifiers

  /** `findRelativeImports`: the TypeScript patterns plus `@import '.…'`. */
  function RelativeImportsOf(stmts: seq<Stmt>): seq<string> {
    MatchAll(FromDot, stmts) + MatchAll(ImportDot, stmts) + MatchAll(RequireDot, stmts) + MatchAll(CssImportDot, stmts)
  }

  /** `findStyleImports`: the TypeScript patterns plus `<link … href="…">`. */
  function StyleImportsOf(stmts: seq<Stmt>): seq<string> {
    MatchAll(CssImportAny, stmts) + MatchAll(CssUrlAny, stmts) + MatchAll(LinkHrefAny, stmts)
  }

  /** No pattern captures the empty string, so `filter(Boolean)` drops nothing. */
  lemma NoEmptyMatch(p: Pattern, stmts: seq<Stmt>)
    ensures "" !in MatchAll(p, stmts)
  {
    MatchAllMembers(p, stmts, "");
  }

  /**
   * `findCustomImports`: the pattern of the type of the project registered
   * at the given root (Python, Java or PHP), nothing for any other type or
   * when no project is registered there.
   */
  function CustomImportsOf(kind: Option<string>, stmts: seq<Stmt>): (r: seq<string>)
    ensures r != [] ==> kind == Some("python") || kind == Some("java") || kind == Some("php")
    ensures "" !in r
  {
    if kind == Some("python") then NoEmptyMatch(Python, stmts); MatchAll(Python, stmts)
    else if kind == Some("java") then NoEmptyMatch(Java, stmts); MatchAll(Java, stmts)
    else if kind == Some("php") then NoEmptyMatch(Php, stmts); MatchAll(Php, stmts)
    else []
  }

  /** The specifier list of one file: the five finders one after the other, repeats kept. */
  function ExtractDependencies(stmts: seq<Stmt>, kind: Option<string>): seq<string> {
    DA.RequiresOf(stmts) + DA.ImportsOf(stmts) + RelativeImportsOf(stmts) + StyleImportsOf(stmts) + CustomImportsOf(kind, stmts)
  }

  /**
   * This build's list holds what the TypeScript list holds, plus the
   * `<link href>` targets and the project type's own imports: its extra
   * `@import '.…'` pattern finds nothing `findImports` missed.
   */
  lemma ExtractMembers(stmts: seq<Stmt>, kind: Option<string>, s: string)
    ensures s in ExtractDependencies(stmts, kind) <==>
      s in DA.ExtractDependencies(stmts) || s in MatchAll(LinkHrefAny, stmts) || s in CustomImportsOf(kind, stmts)
  {
    MatchAllMembers(CssImportDot, stmts, s);
    MatchAllMembers(ImportLazy, stmts, s);
    if s in MatchAll(CssImportDot, stmts) {
      var i :| 0 <= i < |stmts| && Match(CssImportDot, stmts[i]) == Some(s);
      CssDotIsLazy(stmts[i]);
    }
  }

  /** Example: `@import './a.css'` is found four times here (three times by the TypeScript build). */
  lemma CssImportFourTimes(spec: string, kind: Option<string>)
    requires QuotedBody(spec) && spec[0] == '.'
    ensures ExtractDependencies([CssImport(spec)], kind) == [spec, spec, spec, spec]
    ensures DA.ExtractDependencies([CssImport(spec)]) == [spec, spec, spec]
  {
    CssImportFinders(spec);
    CssImportRelative(spec);
    CssImportStyle(spec);
    CssImportCustom(spec, kind);
    var st := [CssImport(spec)];
    FourCopies(DA.RequiresOf(st), DA.ImportsOf(st), RelativeImportsOf(st), StyleImportsOf(st), CustomImportsOf(kind, st), spec);
    ThreeCopies(DA.RequiresOf(st), DA.ImportsOf(st), DA.RelativeImportsOf(st), DA.StyleImportsOf(st), spec);
  }

  /** Five lists of zero, one, two, one and zero copies make four. */
  lemma FourCopies(a: seq<string>, b: seq<string>, c: seq<string>, d: seq<string>, e: seq<string>, spec: string)
    requires a == [] && b == [spec] && c == [spec, spec] && d == [spec] && e == []
    ensures a + b + c + d + e == [spec, spec, spec, spec]
  {
  }

  /** Four lists of zero, one, one and one copies make three. */
  lemma ThreeCopies(a: seq<string>, b: seq<string>, c: seq<string>, d: seq<string>, spec: string)
    requires a == [] && b == [spec] && c == [spec] && d == [spec]
    ensures a + b + c + d == [spec, spec, spec]
  {
  }

  /** What the two finders shared by both builds make of a single `@import '.…'`. */
  lemma CssImportFinders(spec: string)
    requires QuotedBody(spec)
    ensures DA.RequiresOf([CssImport(spec)]) == [] && DA.ImportsOf([CssImport(spec)]) == [spec]
  {
    var s := CssImport(spec);
    OneStatement(RequireCall, s);
    OneStatement(ImportLazy, s);
  }

  lemma CssImportRelative(spec: string)
    requires QuotedBody(spec) && spec[0] == '.'
    ensures RelativeImportsOf([CssImport(spec)]) == [spec, spec] && DA.RelativeImportsOf([CssImport(spec)]) == [spec]
  {
    var s := CssImport(spec);
    OneStatement(FromDot, s);
    OneStatement(ImportDot, s);
    OneStatement(RequireDot, s);
    OneStatement(CssImportDot, s);
  }

  lemma CssImportStyle(spec: string)
    requires QuotedBody(spec)
    ensures StyleImportsOf([CssImport(spec)]) == [spec] && DA.StyleImportsOf([CssImport(spec)]) == [spec]
  {
    var s := CssImport(spec);
    OneStatement(CssImportAny, s);
    OneStatement(CssUrlAny, s);
    OneStatement(LinkHrefAny, s);
  }

  lemma CssImportCustom(spec: string, kind: Option<string>)
    ensures CustomImportsOf(kind, [CssImport(spec)]) == []
  {
    var s := CssImport(spec);
    if kind == Some("python") {
      OneStatement(Python, s);
    } else if kind == Some("java") {
      OneStatement(Java, s);
    } else if kind == Some("php") {
      OneStatement(Php, s);
    }
  }

  /** A single statement yields its own capture, if any. */
  lemma OneStatement(p: Pattern, s: Stmt)
    ensures MatchAll(p, [s]) == Hit(p, s)
  {
    assert [s][1..] == [];
  }

  // ------------------------------------------------------------ resolution

  /** The candidates for a `.` specifier, in order: .js, .json, .ts, .jsx, .tsx, the bare path, then `index.js`. */
  function DependencyCandidates(absPath: Path): (r: seq<Path>)
    ensures |r| == 7 && r[5] == absPath && r[6] == absPath + ["index.js"]
  {
    [AddSuffix(absPath, ".js"), AddSuffix(absPath, ".json"), AddSuffix(absPath, ".ts"), AddSuffix(absPath, ".jsx"),
     AddSuffix(absPath, ".tsx"), absPath, absPath + ["index.js"]]
  }

  /**
   * `resolveDependencyPath`: a `.` specifier against the importing file's
   * directory, any other one joined to the project root; only files already
   * read are answers.
   */
  function ResolveDependency(known: set<Path>, dep: string, currentFile: Path, rootPath: Path): (r: Option<Path>)
    ensures r.Some? ==> r.value in known
    ensures !StartsWith(dep, ".") ==> (r.Some? <==> JoinSpec(rootPath, dep) in known) && (r.Some? ==> r.value == JoinSpec(rootPath, dep))
  {
    if StartsWith(dep, ".") then DA.FirstKnown(known, DependencyCandidates(Resolve(Dirname(currentFile), dep)))
    else if JoinSpec(rootPath, dep) in known then Some(JoinSpec(rootPath, dep))
    else None
  }

  /** The extension order is fixed: with candidate i read, the answer is the first candidate read, no later than i. */
  lemma DependencyPrecedence(known: set<Path>, dep: string, currentFile: Path, rootPath: Path, i: nat)
    requires StartsWith(dep, ".") && i < 7
    requires DependencyCandidates(Resolve(Dirname(currentFile), dep))[i] in known
    ensures exists k :: (0 <= k <= i &&
      ResolveDependency(known, dep, currentFile, rootPath) == Some(DependencyCandidates(Resolve(Dirname(currentFile), dep))[k]) &&
      forall j :: 0 <= j < k ==> DependencyCandidates(Resolve(Dirname(currentFile), dep))[j] !in known)
  {
    var cs := DependencyCandidates(Resolve(Dirname(currentFile), dep));
    var r := ResolveDependency(known, dep, currentFile, rootPath);
    DA.FirstKnownEarliest(known, cs);
    var k :| 0 <= k < |cs| && cs[k] == r.value && forall j :: 0 <= j < k ==> cs[j] !in known;
    assert k <= i;
  }

  /** With both `x.js` and `x.ts` read, this build picks `x.js` and the TypeScript build `x.ts`. */
  lemma ExtensionOrderDiffers(known: set<Path>, dep: string, currentFile: Path, rootPath: Path)
    requires StartsWith(dep, ".")
    requires AddSuffix(Resolve(Dirname(currentFile), dep), ".js") in known && AddSuffix(Resolve(Dirname(currentFile), dep), ".ts") in known
    ensures ResolveDependency(known, dep, currentFile, rootPath) == Some(AddSuffix(Resolve(Dirname(currentFile), dep), ".js"))
    ensures DA.ResolveDependency(known, dep, currentFile) == Some(AddSuffix(Resolve(Dirname(currentFile), dep), ".ts"))
  {
  }

  /** The `dependencies` entry of one file: its specifiers resolved in order, unresolved and claimed ones dropped. */
  function DependenciesOf(known: set<Path>, deps: seq<string>, currentFile: Path, rootPath: Path, claimed: set<string>): (r: seq<Path>)
    ensures forall x :: x in r ==> x in known && PathString(x) !in claimed
    decreases |deps|
  {
    if deps == [] then []
    else
      var rest := DependenciesOf(known, deps[1..], currentFile, rootPath, claimed);
      match ResolveDependency(known, deps[0], currentFile, rootPath)
      case Some(p) =>
        if PathString(p) !in claimed then [p] + rest
        else rest
      case None => rest
  }

  // ------------------------------------------------------------ project roots and node looks

  /** The manifests `findProjectRoot` probes for. */
  const RootMarkers: seq<string> := ["package.json", "composer.json", "pom.xml", "build.gradle", "requirements.txt", "go.mod", "Cargo.toml"]

  /**
   * `projectMarkers.some(marker => { try { fs.access(…); return true } catch { return false } })`:
   * `fs.access` of `fs/promises` hands back a promise instead of throwing, so
   * the callback answers true for the first marker.
   */
  function SomeMarkerAnswers(markers: seq<string>): bool {
    markers != []
  }

  /** `this.projects.get(projectRoot)?.type` */
  function KindAt(projects: OMap<Path, DA.Project>, root: Path): Option<string> {
    if root in projects.m then Some(projects.m[root].kind) else None
  }

  /** `… || 'unknown'` */
  function TypeLabel(kind: Option<string>): string {
    if kind.Some? && kind.value != "" then kind.value else "unknown"
  }

  /**
   * `getFileGroup`: Node files by extension (scripts 1, TypeScript 2, JSON 3),
   * PHP 8, Java 7, Python 5 whatever the extension, and for any other type
   * Markdown 3; everything else 9.
   */
  function GetFileGroup(file: Path, projectType: string): (g: int)
    ensures g in {1, 2, 3, 5, 7, 8, 9}
    ensures g == 3 <==> ((projectType == "node" && Ext(file) == ".json") ||
      (projectType !in {"node", "php", "java", "python"} && Ext(file) == ".md"))
    ensures g == 1 || g == 2 <==> projectType == "node" && Ext(file) in {".js", ".jsx", ".ts", ".tsx"}
    ensures g in {5, 7, 8} <==> projectType in {"php", "java", "python"}
  {
    var ext := Ext(file);
    if projectType == "node" then
      if ext == ".js" || ext == ".jsx" then 1
      else if ext == ".ts" || ext == ".tsx" then 2
      else if ext == ".json" then 3
      else 9
    else if projectType == "php" then 8
    else if projectType == "java" then 7
    else if projectType == "python" then 5
    else if ext == ".md" then 3
    else 9
  }

  /** The node of the file numbered `index`: its project is the one registered at its own directory. */
  function IndexNode(index: nat, file: Path, contents: map<Path, Content>, projects: OMap<Path, DA.Project>, log2: nat -> real): GraphNode {
    var root := Dirname(file);
    var projectType := TypeLabel(KindAt(projects, root));
    var text := if file in contents then contents[file].text else "";
    GraphNode(Idx(index), Basename(file), DA.FileKind(file), if file in contents then Some(text) else None,
      GetFileGroup(file, projectType), DA.NodeSize(log2, text), Some(projectType), Some(PathString(root)))
  }

  function IndexNodes(files: seq<Path>, contents: map<Path, Content>, projects: OMap<Path, DA.Project>, log2: nat -> real): (r: seq<GraphNode>)
    ensures |r| == |files| && forall i :: 0 <= i < |files| ==> r[i] == IndexNode(i, files[i], contents, projects, log2)
  {
    seq(|files|, i requires 0 <= i < |files| => IndexNode(i, files[i], contents, projects, log2))
  }

  /** The generic graph of a `dependencies` map: its files numbered in order, linked as in the TypeScript build. */
  function IndexGraph(d: OMap<Path, seq<Path>>, contents: map<Path, Content>, projects: OMap<Path, DA.Project>, log2: nat -> real): GraphData
    requires d.Valid()
  {
    assert forall i :: 0 <= i < |d.keys| ==> d.keys[i] in d.m;
    GraphData(IndexNodes(d.keys, contents, projects, log2), DA.IndexLinks(d.keys, d.m, 0))
  }

  /** The generic graph is closed: every link joins two numbered files. */
  lemma IndexGraphClosed(d: OMap<Path, seq<Path>>, contents: map<Path, Content>, projects: OMap<Path, DA.Project>, log2: nat -> real)
    requires d.Valid()
    ensures Closed(IndexGraph(d, contents, projects, log2).nodes, IndexGraph(d, contents, projects, log2).links)
  {
    assert forall i :: 0 <= i < |d.keys| ==> d.keys[i] in d.m;
    var nodes := IndexNodes(d.keys, contents, projects, log2);
    var links := DA.IndexLinks(d.keys, d.m, 0);
    DA.IndexLinksInRange(d.keys, d.m, 0);
    assert forall i :: 0 <= i < |nodes| ==> nodes[i].id == Idx(i);
    ClosedByIndex(nodes, links);
  }

  /** With no file recorded, the generic graph is empty. */
  lemma EmptyIndexGraph(d: OMap<Path, seq<Path>>, contents: map<Path, Content>, projects: OMap<Path, DA.Project>, log2: nat -> real)
    requires d.Valid() && d.keys == []
    ensures IndexGraph(d, contents, projects, log2) == GraphData([], [])
  {
  }

  // ------------------------------------------------------------ the analysis state

  /** The `dependencies` entry set for one read: the project root is the file's own directory. */
  function EntryOf(known: set<Path>, projects: OMap<Path, DA.Project>, read: DA.FileRead, claimed: set<string>): seq<Path> {
    var root := Dirname(read.file);
    DependenciesOf(known, ExtractDependencies(read.content.stmts, KindAt(projects, root)), read.file, root, claimed)
  }

  /** `dependencies.set(file, …)`, read by read. */
  function RecordDeps(d: OMap<Path, seq<Path>>, known: set<Path>, projects: OMap<Path, DA.Project>, rs: seq<DA.FileRead>, claimed: set<string>): (r: OMap<Path, seq<Path>>)
    requires d.Valid()
    ensures r.Valid() && r.m.Keys == d.m.Keys + DA.FilesOf(rs)
    decreases |rs|
  {
    if rs == [] then d
    else
      var last := rs[|rs| - 1];
      DA.FilesOfSnoc(rs);
      RecordDeps(d, known, projects, rs[..|rs| - 1], claimed).Put(last.file, EntryOf(known, projects, last, claimed))
  }

  lemma RecordDepsStep(d: OMap<Path, seq<Path>>, known: set<Path>, projects: OMap<Path, DA.Project>, rs: seq<DA.FileRead>, i: nat, claimed: set<string>)
    requires d.Valid() && i < |rs|
    ensures RecordDeps(d, known, projects, rs[..i + 1], claimed) ==
      RecordDeps(d, known, projects, rs[..i], claimed).Put(rs[i].file, EntryOf(known, projects, rs[i], claimed))
  {
    assert rs[..i + 1][..i] == rs[..i] && rs[..i + 1][i] == rs[i];
  }

  lemma FilesOfStep(rs: seq<DA.FileRead>, i: nat)
    requires i < |rs|
    ensures DA.FilesOf(rs[..i + 1]) == DA.FilesOf(rs[..i]) + {rs[i].file}
  {
    assert rs[..i + 1][..i] == rs[..i] && rs[..i + 1][i] == rs[i];
    DA.FilesOfSnoc(rs[..i + 1]);
  }

  /** The dependency map and the root cache once the first `i` reads are handled. */
  ghost predicate ComputedUpTo(deps: OMap<Path, seq<Path>>, cache: map<Path, Path>, known: set<Path>, projects: OMap<Path, DA.Project>,
    d0: OMap<Path, seq<Path>>, c0: map<Path, Path>, rs: seq<DA.FileRead>, claimed: set<string>, i: nat)
  {
    d0.Valid() && i <= |rs| && DA.FilesOf(rs) <= known &&
    deps == RecordDeps(d0, known, projects, rs[..i], claimed) &&
    cache.Keys == c0.Keys + DA.FilesOf(rs[..i])
  }

  lemma ComputedFile(deps: OMap<Path, seq<Path>>, cache: map<Path, Path>, known: set<Path>, projects: OMap<Path, DA.Project>,
    d0: OMap<Path, seq<Path>>, c0: map<Path, Path>, rs: seq<DA.FileRead>, claimed: set<string>, i: nat)
    requires ComputedUpTo(deps, cache, known, projects, d0, c0, rs, claimed, i) && i < |rs|
    ensures rs[i].file in known
  {
    assert rs[i].file in DA.FilesOf(rs);
  }

  /** Recording the next read's entry, and caching its root, handles one more read. */
  lemma ComputedStep(deps: OMap<Path, seq<Path>>, cache: map<Path, Path>, known: set<Path>, projects: OMap<Path, DA.Project>,
    d0: OMap<Path, seq<Path>>, c0: map<Path, Path>, rs: seq<DA.FileRead>, claimed: set<string>, i: nat)
    requires ComputedUpTo(deps, cache, known, projects, d0, c0, rs, claimed, i) && i < |rs|
    ensures ComputedUpTo(deps.Put(rs[i].file, EntryOf(known, projects, rs[i], claimed)), cache[rs[i].file := Dirname(rs[i].file)],
      known, projects, d0, c0, rs, claimed, i + 1)
  {
    RecordDepsStep(d0, known, projects, rs, i, claimed);
    FilesOfStep(rs, i);
    Sequences.KeysStep(cache, rs[i].file, Dirname(rs[i].file), c0.Keys, DA.FilesOf(rs[..i]), DA.FilesOf(rs[..i + 1]));
  }

  /** The nodes of the numbering pass after `i` files: one per file, in order. */
  ghost predicate NodesUpTo(keys: seq<Path>, nodes: seq<GraphNode>, i: nat, contents: map<Path, Content>, projects: OMap<Path, DA.Project>, log2: nat -> real) {
    i <= |keys| && nodes == IndexNodes(keys, contents, projects, log2)[..i]
  }

  /** `fileIndex` after `i` files: exactly their positions. */
  ghost predicate IndexedUpTo(keys: seq<Path>, fileIndex: map<Path, nat>, i: nat) {
    i <= |keys| && (forall p :: p in fileIndex <==> p in keys[..i]) &&
    (forall p :: p in fileIndex ==> DA.IndexOf(keys, p) == Some(fileIndex[p]))
  }

  lemma NodesStep(keys: seq<Path>, nodes: seq<GraphNode>, i: nat, contents: map<Path, Content>, projects: OMap<Path, DA.Project>, log2: nat -> real, node: GraphNode)
    requires NodesUpTo(keys, nodes, i, contents, projects, log2) && i < |keys|
    requires node == IndexNode(i, keys[i], contents, projects, log2)
    ensures NodesUpTo(keys, nodes + [node], i + 1, contents, projects, log2)
  {
    var all := IndexNodes(keys, contents, projects, log2);
    assert all[i] == node;
    Sequences.TakeSnoc(all, i);
  }

  lemma IndexedStep(keys: seq<Path>, fileIndex: map<Path, nat>, i: nat)
    requires IndexedUpTo(keys, fileIndex, i) && i < |keys|
    requires forall a, b :: 0 <= a < b < |keys| ==> keys[a] != keys[b]
    ensures IndexedUpTo(keys, fileIndex[keys[i] := i], i + 1)
  {
    DA.FileIndexStep(keys, fileIndex, fileIndex[keys[i] := i], i);
  }

  lemma NodesAll(keys: seq<Path>, nodes: seq<GraphNode>, contents: map<Path, Content>, projects: OMap<Path, DA.Project>, log2: nat -> real)
    requires NodesUpTo(keys, nodes, |keys|, contents, projects, log2)
    ensures nodes == IndexNodes(keys, contents, projects, log2)
  {
    var all := IndexNodes(keys, contents, projects, log2);
    assert all[..|keys|] == all;
  }

  lemma IndexedAll(keys: seq<Path>, fileIndex: map<Path, nat>)
    requires IndexedUpTo(keys, fileIndex, |keys|)
    ensures forall p :: p !in fileIndex ==> DA.IndexOf(keys, p).None?
  {
    assert keys[..|keys|] == keys;
  }

  /** The first `n` keys, as a set. */
  function Listed(keys: seq<Path>, n: nat): set<Path>
    requires n <= |keys|
  {
    set j | 0 <= j < n :: keys[j]
  }

  lemma ListedStep(keys: seq<Path>, n: nat)
    requires n < |keys|
    ensures Listed(keys, n + 1) == Listed(keys, n) + {keys[n]}
  {
    forall p | p in Listed(keys, n + 1)
      ensures p in Listed(keys, n) + {keys[n]}
    {
      var j :| 0 <= j < n + 1 && keys[j] == p;
    }
  }

  /**
   * What the specialised analysis of one project left: the analyzer its
   * probes picked, its graph (`None` when that analyzer threw or none ran),
   * and whether the React analyzer held a layout or a page afterwards.
   */
  datatype Run = Run(choice: DA.Choice, graph: Option<GraphData>, recorded: bool)

  /** The run's graph is the answer, for the project at `root`, of the analyzer the run names. */
  ghost predicate Answered(fs: FS, root: Path, run: Run) {
    match run.choice
    case NodeBackend => run.graph == Some(NodeBackendGraph())
    case NextApp => NextjsAnalyzer.Analyzed(fs, root, run.graph)
    case ReactNativeApp => ReactNativeAnalyzer.Analyzed(fs, root, run.graph)
    case ReactApp => RJ.Answered(fs, root, run.graph, run.recorded)
  }

  /** The run of a project of type `kind` at `root`: a Node project's analyzer answered it, any other project has no graph. */
  ghost predicate ProjectRun(fs: FS, root: Path, kind: string, run: Run) {
    if kind == "node" then Answered(fs, root, run) else run.graph.None?
  }

  /** The `j`-th run answers the `j`-th project. */
  ghost predicate RunAt(fs: FS, projects: OMap<Path, DA.Project>, runs: seq<Run>, j: nat) {
    j < |runs| && j < |projects.keys| && projects.keys[j] in projects.m &&
    ProjectRun(fs, projects.keys[j], projects.m[projects.keys[j]].kind, runs[j])
  }

  /** The first `|runs|` projects in order: a Node project ran the analyzer its probes picked, any other project ran none. */
  ghost predicate RanUpTo(fs: FS, projects: OMap<Path, DA.Project>, runs: seq<Run>)
    decreases |runs|
  {
    |runs| <= |projects.keys| &&
    (runs == [] || (RanUpTo(fs, projects, runs[..|runs| - 1]) && RunAt(fs, projects, runs, |runs| - 1)))
  }

  /** Run by run: the `j`-th run answers the `j`-th project. */
  lemma {:induction false} RanEach(fs: FS, projects: OMap<Path, DA.Project>, runs: seq<Run>)
    requires RanUpTo(fs, projects, runs)
    ensures forall j :: 0 <= j < |runs| ==> RunAt(fs, projects, runs, j)
    decreases |runs|
  {
    if runs != [] {
      var init := runs[..|runs| - 1];
      RanEach(fs, projects, init);
      forall j | 0 <= j < |init|
        ensures RunAt(fs, projects, runs, j)
      {
        assert RunAt(fs, projects, init, j);
        assert init[j] == runs[j];
      }
    }
  }

  /** One more project's run extends the runs, and its graph's nodes and links extend theirs. */
  lemma RanSnoc(fs: FS, projects: OMap<Path, DA.Project>, runs: seq<Run>, run: Run)
    requires projects.Valid() && RanUpTo(fs, projects, runs) && |runs| < |projects.keys|
    requires ProjectRun(fs, projects.keys[|runs|], projects.m[projects.keys[|runs|]].kind, run)
    ensures RanUpTo(fs, projects, runs + [run])
    ensures RunNodes(runs + [run]) == RunNodes(runs) + DA.GraphNodes(run.graph) && RunLinks(runs + [run]) == RunLinks(runs) + DA.GraphLinks(run.graph)
  {
    var rs := runs + [run];
    assert rs[..|runs|] == runs;
    assert RunAt(fs, projects, rs, |runs|);
  }

  /** Every Node project's run used the analyzer ChooseAnalyzer names, as it does while no probe is cancelled. */
  ghost predicate ChoicesMatch(fs: FS, projects: OMap<Path, DA.Project>, runs: seq<Run>) {
    forall j :: 0 <= j < |runs| && j < |projects.keys| && projects.keys[j] in projects.m && projects.m[projects.keys[j]].kind == "node" ==>
      runs[j].choice == ChooseAnalyzer(fs, projects.keys[j])
  }

  /** A next run that used the analyzer ChooseAnalyzer names, when its project is a Node project, keeps the choices matching. */
  lemma ChoicesSnoc(fs: FS, projects: OMap<Path, DA.Project>, runs: seq<Run>, run: Run)
    requires ChoicesMatch(fs, projects, runs) && |runs| < |projects.keys|
    requires projects.keys[|runs|] in projects.m && projects.m[projects.keys[|runs|]].kind == "node" ==> run.choice == ChooseAnalyzer(fs, projects.keys[|runs|])
    ensures ChoicesMatch(fs, projects, runs + [run])
  {
    forall j | 0 <= j < |runs|
      ensures (runs + [run])[j] == runs[j]
    {
    }
  }

  /** The nodes of the runs' graphs, concatenated in project order. */
  function RunNodes(runs: seq<Run>): seq<GraphNode> {
    if runs == [] then [] else RunNodes(runs[..|runs| - 1]) + DA.GraphNodes(runs[|runs| - 1].graph)
  }

  /** The links of the runs' graphs, concatenated in project order. */
  function RunLinks(runs: seq<Run>): seq<GraphLink> {
    if runs == [] then [] else RunLinks(runs[..|runs| - 1]) + DA.GraphLinks(runs[|runs| - 1].graph)
  }

  /**
   * `DependencyAnalyzer` (JavaScript): the dependency lists, file contents
   * and project roots found so far, the React analyzer it owns, and the
   * `projectRootCache`, whose every answer is the file's own directory.
   */
  class DependencyAnalyzer {
    var dependencies: OMap<Path, seq<Path>>
    var fileContents: map<Path, Content>
    var projects: OMap<Path, DA.Project>
    var projectRootCache: map<Path, Path>
    const reactAnalyzer: RJ.ReactAnalyzer
    /** `Math.log2`. */
    const log2: nat -> real

    ghost predicate Valid()
      reads this, reactAnalyzer
    {
      dependencies.Valid() && projects.Valid() && reactAnalyzer.Valid() &&
      dependencies.m.Keys <= fileContents.Keys &&
      forall f :: f in projectRootCache ==> projectRootCache[f] == Dirname(f)
    }

    constructor (log2: nat -> real)
      ensures Valid() && fresh(reactAnalyzer) && this.log2 == log2
      ensures dependencies.keys == [] && fileContents == map[] && projects.keys == [] && projectRootCache == map[]
    {
      dependencies := EmptyMap();
      fileContents := map[];
      projects := EmptyMap();
      projectRootCache := map[];
      reactAnalyzer := new RJ.ReactAnalyzer();
      this.log2 := log2;
    }

    /**
     * `findProjectRoot`: a cached answer first. Otherwise the walk up from the
     * file's directory stops at its first step, below the filesystem root:
     * there the directory is either a detected root or passes the marker
     * test, which always passes. Either way the answer is the file's
     * directory, and it is cached.
     */
    method FindProjectRoot(filePath: Path) returns (root: Path)
      requires Valid()
      modifies this`projectRootCache
      ensures Valid()
      ensures root == Dirname(filePath)
      ensures projectRootCache == old(projectRootCache)[filePath := Dirname(filePath)]
    {
      if filePath in projectRootCache {
        return projectRootCache[filePath];
      }
      var currentDir := Dirname(filePath);
      // `while (currentDir !== path.dirname(currentDir))`: its body returns on the first pass.
      if currentDir != Dirname(currentDir) {
        if currentDir in projects.m {
          projectRootCache := projectRootCache[filePath := currentDir];
          return currentDir;
        }
        if SomeMarkerAnswers(RootMarkers) {
          projectRootCache := projectRootCache[filePath := currentDir];
          return currentDir;
        }
      }
      projectRootCache := projectRootCache[filePath := Dirname(filePath)];
      return Dirname(filePath);
    }

    /** `resolveDependencyPath`: the extension loop with `index.js` right after the bare path, or the root join. */
    method ResolveDependencyPath(dep: string, currentFile: Path, rootPath: Path) returns (r: Option<Path>)
      ensures r == ResolveDependency(fileContents.Keys, dep, currentFile, rootPath)
    {
      if StartsWith(dep, ".") {
        r := ResolveRelative(Resolve(Dirname(currentFile), dep));
      } else {
        var possiblePath := JoinSpec(rootPath, dep);
        r := if possiblePath in fileContents then Some(possiblePath) else None;
      }
    }

    /** The extension loop of `resolveDependencyPath` for an absolute base path. */
    method ResolveRelative(absPath: Path) returns (r: Option<Path>)
      ensures r == DA.FirstKnown(fileContents.Keys, DependencyCandidates(absPath))
    {
      var exts := [".js", ".json", ".ts", ".jsx", ".tsx", ""];
      ghost var cands := DependencyCandidates(absPath);
      var i := 0;
      while i < |exts|
        invariant 0 <= i <= |exts|
        invariant forall j :: 0 <= j < i ==> cands[j] !in fileContents
        invariant i < |exts| ==> DA.FirstKnown(fileContents.Keys, cands) == DA.FirstKnown(fileContents.Keys, cands[i..])
        invariant i == |exts| ==> DA.FirstKnown(fileContents.Keys, cands) == None
      {
        var p := AddSuffix(absPath, exts[i]);
        assert p == cands[i];
        if p in fileContents {
          return Some(p);
        }
        assert cands[i..][1..] == cands[i + 1..];
        if exts[i] == "" {
          var index := absPath + ["index.js"];
          assert cands[i + 1..][0] == index && cands[i + 1..][1..] == [];
          if index in fileContents {
            return Some(index);
          }
        }
        i := i + 1;
      }
      return None;
    }

    /** The file reads: one read of the token per file, a cancelled read skipping it; claimed, unreadable and blank files skipped. */
    method ReadFiles(fs: FS, files: seq<Path>, claimed: set<string>, token: CancellationToken?) returns (rs: seq<DA.FileRead>, ghost upTo: nat)
      requires Valid()
      modifies this`fileContents, token
      ensures Valid()
      ensures token != null ==> token.polls >= old(token.polls)
      ensures upTo <= |files| && rs == DA.Stored(fs, files[..upTo], claimed)
      ensures fileContents == DA.Record(old(fileContents), rs)
      ensures Quiet(token) ==> upTo == |files|
    {
      rs := [];
      upTo := 0;
      ghost var stopped := false;
      var i := 0;
      while i < |files|
        invariant 0 <= i <= |files|
        invariant Valid()
        invariant token != null ==> token.polls >= old(token.polls)
        invariant upTo <= i && rs == DA.Stored(fs, files[..upTo], claimed)
        invariant fileContents == DA.Record(old(fileContents), rs)
        invariant !stopped ==> upTo == i
        invariant stopped ==> token != null && token.polls > token.signalAfter
      {
        var stop;
        stop, rs := ReadNext(fs, files, claimed, token, i, rs, old(fileContents));
        if stop {
          stopped := true;
        } else {
          upTo := i + 1;
        }
        i := i + 1;
      }
      assert files[..|files|] == files;
    }

    /** One pass of the read loop: the token read, then the `i`-th file unless the read cancels. */
    method ReadNext(fs: FS, files: seq<Path>, claimed: set<string>, token: CancellationToken?, i: nat, rs: seq<DA.FileRead>,
                    ghost f0: map<Path, Content>)
      returns (stop: bool, rs': seq<DA.FileRead>)
      requires Valid() && i < |files| && fileContents == DA.Record(f0, rs)
      modifies this`fileContents, token
      ensures Valid()
      ensures token == null ==> !stop
      ensures token != null ==> token.polls == old(token.polls) + 1 && (stop <==> old(token.polls) >= token.signalAfter)
      ensures stop ==> rs' == rs && fileContents == old(fileContents)
      ensures !stop ==> fileContents == DA.Record(f0, rs')
      ensures !stop && rs == DA.Stored(fs, files[..i], claimed) ==> rs' == DA.Stored(fs, files[..i + 1], claimed)
    {
      rs' := rs;
      stop := Cancelled(token);
      if !stop {
        var kept := ReadOne(fs, files[i], claimed);
        rs' := rs + kept;
        DA.StoredStep(fs, files, claimed, i);
        DA.RecordAppend(f0, rs, kept);
      }
    }

    /** One file's read: kept when unclaimed, readable and not blank, and then recorded. */
    method ReadOne(fs: FS, file: Path, claimed: set<string>) returns (kept: seq<DA.FileRead>)
      requires Valid()
      modifies this`fileContents
      ensures Valid()
      ensures kept == DA.StoredOne(fs, file, claimed) && fileContents == DA.Record(old(fileContents), kept)
    {
      kept := [];
      if PathString(file) !in claimed {
        match ReadFile(fs, file) {
          case Ok(c) =>
            if !IsBlank(c.text) {
              fileContents := fileContents[file := c];
              kept := [DA.FileRead(file, c)];
              assert kept[..0] == [];
            }
          case Err(_) =>
        }
      }
    }

    /**
     * The dependency loop: one read of the token per file, a cancelled read
     * ending the analysis; each file's root is looked up (and cached) first.
     */
    method ComputeDependencies(rs: seq<DA.FileRead>, claimed: set<string>, token: CancellationToken?) returns (cancelled: bool, ghost done: nat)
      requires Valid() && DA.FilesOf(rs) <= fileContents.Keys
      modifies this`dependencies, this`projectRootCache, token
      ensures Valid()
      ensures token != null ==> token.polls >= old(token.polls)
      ensures done <= |rs| && dependencies == RecordDeps(old(dependencies), fileContents.Keys, projects, rs[..done], claimed)
      ensures projectRootCache.Keys == old(projectRootCache).Keys + DA.FilesOf(rs[..done])
      ensures cancelled <==> done < |rs|
      ensures Quiet(token) ==> !cancelled
      ensures old(Raised(token)) ==> done == 0
    {
      ghost var d0, c0 := dependencies, projectRootCache;
      assert rs[..0] == [];
      cancelled, done := ComputeLoop(d0, c0, rs, claimed, token);
    }

    /** The loop of `ComputeDependencies`, from the state it starts in. */
    method ComputeLoop(ghost d0: OMap<Path, seq<Path>>, ghost c0: map<Path, Path>, rs: seq<DA.FileRead>, claimed: set<string>,
                       token: CancellationToken?) returns (cancelled: bool, ghost done: nat)
      requires Computed(d0, c0, rs, claimed, 0)
      modifies this`dependencies, this`projectRootCache, token
      ensures done <= |rs| && Computed(d0, c0, rs, claimed, done)
      ensures token != null ==> token.polls >= old(token.polls)
      ensures cancelled <==> done < |rs|
      ensures Quiet(token) ==> !cancelled
      ensures old(Raised(token)) ==> done == 0
    {
      var i := 0;
      while i < |rs|
        invariant 0 <= i <= |rs|
        invariant Computed(d0, c0, rs, claimed, i)
        invariant token != null ==> token.polls >= old(token.polls)
        invariant old(Raised(token)) ==> i == 0
      {
        var stop := ComputeNext(d0, c0, rs, claimed, token, i);
        if stop {
          return true, i;
        }
        i := i + 1;
      }
      return false, |rs|;
    }

    /** The token read of one pass, then the pass itself unless the read cancels. */
    method ComputeNext(ghost d0: OMap<Path, seq<Path>>, ghost c0: map<Path, Path>, rs: seq<DA.FileRead>, claimed: set<string>,
                       token: CancellationToken?, i: nat) returns (stop: bool)
      requires Computed(d0, c0, rs, claimed, i) && i < |rs|
      modifies this`dependencies, this`projectRootCache, token
      ensures token != null ==> token.polls == old(token.polls) + 1
      ensures stop <==> token != null && old(token.polls) >= token.signalAfter
      ensures stop ==> Computed(d0, c0, rs, claimed, i)
      ensures !stop ==> Computed(d0, c0, rs, claimed, i + 1)
    {
      stop := Cancelled(token);
      if !stop {
        ComputeStep(d0, c0, rs, claimed, i);
      }
    }

    /** The state after the dependency loop has handled the first `i` reads. */
    ghost predicate Computed(d0: OMap<Path, seq<Path>>, c0: map<Path, Path>, rs: seq<DA.FileRead>, claimed: set<string>, i: nat)
      reads this, reactAnalyzer
    {
      Valid() && ComputedUpTo(dependencies, projectRootCache, fileContents.Keys, projects, d0, c0, rs, claimed, i)
    }

    /** One pass of the dependency loop. */
    method ComputeStep(ghost d0: OMap<Path, seq<Path>>, ghost c0: map<Path, Path>, rs: seq<DA.FileRead>, claimed: set<string>, i: nat)
      requires Computed(d0, c0, rs, claimed, i) && i < |rs|
      modifies this`dependencies, this`projectRootCache
      ensures Computed(d0, c0, rs, claimed, i + 1)
    {
      ghost var d, c := dependencies, projectRootCache;
      ComputedFile(d, c, fileContents.Keys, projects, d0, c0, rs, claimed, i);
      ComputeOne(rs[i], claimed);
      ComputedStep(d, c, fileContents.Keys, projects, d0, c0, rs, claimed, i);
    }

    /** One file of the dependency loop: its root, its custom imports by that root's type, its resolved list. */
    method ComputeOne(read: DA.FileRead, claimed: set<string>)
      requires Valid() && read.file in fileContents
      modifies this`dependencies, this`projectRootCache
      ensures Valid()
      ensures dependencies == old(dependencies).Put(read.file, EntryOf(fileContents.Keys, projects, read, claimed))
      ensures projectRootCache == old(projectRootCache)[read.file := Dirname(read.file)]
    {
      var deps := EntryFor(read, claimed);
      dependencies := dependencies.Put(read.file, deps);
    }

    /** The resolved list of one read, its custom imports chosen by the type of the root `findProjectRoot` gives. */
    method EntryFor(read: DA.FileRead, claimed: set<string>) returns (deps: seq<Path>)
      requires Valid()
      modifies this`projectRootCache
      ensures Valid()
      ensures deps == EntryOf(fileContents.Keys, projects, read, claimed)
      ensures projectRootCache == old(projectRootCache)[read.file := Dirname(read.file)]
    {
      var projectRoot := FindProjectRoot(read.file);
      var specs := ExtractDependencies(read.content.stmts, KindAt(projects, projectRoot));
      deps := DependenciesOf(fileContents.Keys, specs, read.file, projectRoot, claimed);
    }

    /**
     * `formatDependencyGraph`: a first pass that only looks every file's root
     * up (`projectGroups` is never read), then the numbering, then the links.
     */
    method FormatDependencyGraph() returns (g: GraphData)
      requires Valid()
      modifies this`projectRootCache
      ensures Valid()
      ensures g == IndexGraph(dependencies, fileContents, projects, log2)
      ensures projectRootCache.Keys == old(projectRootCache).Keys + dependencies.m.Keys
    {
      LookUpRoots();
      var nodes, fileIndex := NumberFiles();
      assert forall j :: 0 <= j < |dependencies.keys| ==> dependencies.keys[j] in dependencies.m;
      var links := DA.AllLinks(dependencies.keys, dependencies.m, fileIndex);
      g := GraphData(nodes, links);
    }

    /** The first pass of `formatDependencyGraph`: `findProjectRoot` for every file, the answers dropped. */
    method LookUpRoots()
      requires Valid()
      modifies this`projectRootCache
      ensures Valid()
      ensures projectRootCache.Keys == old(projectRootCache).Keys + dependencies.m.Keys
    {
      var i := 0;
      while i < |dependencies.keys|
        invariant 0 <= i <= |dependencies.keys|
        invariant Valid()
        invariant projectRootCache.Keys == old(projectRootCache).Keys + Listed(dependencies.keys, i)
      {
        var _ := FindProjectRoot(dependencies.keys[i]);
        ListedStep(dependencies.keys, i);
        i := i + 1;
      }
      assert Listed(dependencies.keys, |dependencies.keys|) == dependencies.m.Keys;
    }

    /** The numbering pass of `formatDependencyGraph`: a node per file, and `fileIndex`. */
    method NumberFiles() returns (nodes: seq<GraphNode>, fileIndex: map<Path, nat>)
      requires Valid() && dependencies.m.Keys <= projectRootCache.Keys
      modifies this`projectRootCache
      ensures Valid()
      ensures nodes == IndexNodes(dependencies.keys, fileContents, projects, log2)
      ensures forall p :: p in fileIndex ==> DA.IndexOf(dependencies.keys, p) == Some(fileIndex[p])
      ensures forall p :: p !in fileIndex ==> DA.IndexOf(dependencies.keys, p).None?
      ensures projectRootCache == old(projectRootCache)
    {
      var keys := dependencies.keys;
      nodes := [];
      fileIndex := map[];
      var i := 0;
      while i < |keys|
        invariant 0 <= i <= |keys|
        invariant Valid() && keys == dependencies.keys
        invariant NodesUpTo(keys, nodes, i, fileContents, projects, log2) && IndexedUpTo(keys, fileIndex, i)
        invariant projectRootCache == old(projectRootCache)
      {
        nodes, fileIndex := NumberNext(i, nodes, fileIndex);
        i := i + 1;
      }
      NodesAll(keys, nodes, fileContents, projects, log2);
      IndexedAll(keys, fileIndex);
    }

    /** One pass of NumberFiles's loop: the node and the index entry of the `i`-th file. */
    method NumberNext(i: nat, nodes: seq<GraphNode>, fileIndex: map<Path, nat>) returns (nodes': seq<GraphNode>, fileIndex': map<Path, nat>)
      requires Valid() && dependencies.m.Keys <= projectRootCache.Keys && i < |dependencies.keys|
      requires NodesUpTo(dependencies.keys, nodes, i, fileContents, projects, log2) && IndexedUpTo(dependencies.keys, fileIndex, i)
      modifies this`projectRootCache
      ensures Valid() && projectRootCache == old(projectRootCache)
      ensures NodesUpTo(dependencies.keys, nodes', i + 1, fileContents, projects, log2) && IndexedUpTo(dependencies.keys, fileIndex', i + 1)
    {
      var keys := dependencies.keys;
      var file := keys[i];
      assert file in dependencies.m;
      ghost var cache := projectRootCache;
      assert file in cache && cache[file] == Dirname(file);
      Sequences.StoreSame(cache, file, Dirname(file));
      var node := FileNode(i, file);
      NodesStep(keys, nodes, i, fileContents, projects, log2, node);
      IndexedStep(keys, fileIndex, i);
      fileIndex' := fileIndex[file := i];
      nodes' := nodes + [node];
    }

    /** The node of the file numbered `index`, its project looked up through `findProjectRoot`. */
    method FileNode(index: nat, file: Path) returns (node: GraphNode)
      requires Valid() && file in fileContents
      modifies this`projectRootCache
      ensures Valid()
      ensures node == IndexNode(index, file, fileContents, projects, log2)
      ensures projectRootCache == old(projectRootCache)[file := Dirname(file)]
    {
      var projectRoot := FindProjectRoot(file);
      var projectType := TypeLabel(KindAt(projects, projectRoot));
      var text := fileContents[file].text;
      node := GraphNode(Idx(index), Basename(file), DA.FileKind(file), Some(text), GetFileGroup(file, projectType),
        DA.NodeSize(log2, text), Some(projectType), Some(PathString(projectRoot)));
    }

    /**
     * The project loop: a cancelled read of the token ends the analysis; a
     * Node project runs the three probes, in the order Next.js, React Native,
     * backend, and goes to the analyzer the first true one of backend,
     * Next.js, React Native names, React otherwise; an analyzer that throws
     * is passed over. `runs` records, project by project, what was run.
     */
    method AnalyzeProjects(fs: FS, token: CancellationToken?)
      returns (cancelled: bool, nodes: seq<GraphNode>, links: seq<GraphLink>, claimed: set<string>, ghost runs: seq<Run>)
      requires Valid()
      modifies reactAnalyzer, token
      ensures Valid()
      ensures token != null ==> token.polls >= old(token.polls)
      ensures claimed == DA.StrIds(nodes)
      ensures DA.NoNodeProject(projects) ==> nodes == [] && links == []
      ensures Quiet(token) ==> !cancelled
      ensures old(Raised(token)) ==> (cancelled <==> projects.keys != [])
      ensures cancelled ==> nodes == [] && links == []
      ensures !cancelled ==> RanUpTo(fs, projects, runs) && |runs| == |projects.keys| && nodes == RunNodes(runs) && links == RunLinks(runs)
      ensures Quiet(token) ==> ChoicesMatch(fs, projects, runs)
    {
      nodes, links, claimed, runs := [], [], {}, [];
      cancelled := false;
      var i := 0;
      while i < |projects.keys|
        invariant 0 <= i <= |projects.keys|
        invariant Valid()
        invariant token != null ==> token.polls >= old(token.polls)
        invariant claimed == DA.StrIds(nodes)
        invariant (forall j :: 0 <= j < i ==> projects.m[projects.keys[j]].kind != "node") ==> nodes == [] && links == []
        invariant old(Raised(token)) ==> i == 0
        invariant RanUpTo(fs, projects, runs) && |runs| == i && nodes == RunNodes(runs) && links == RunLinks(runs)
        invariant Quiet(token) ==> ChoicesMatch(fs, projects, runs)
      {
        var stop;
        stop, nodes, links, claimed, runs := ProjectStep(fs, token, i, nodes, links, claimed, runs);
        if stop {
          return true, [], [], {}, runs;
        }
        i := i + 1;
      }
    }

    /** One pass of the project loop: the token read, then the project unless the read cancels. */
    method ProjectStep(fs: FS, token: CancellationToken?, i: nat, nodes: seq<GraphNode>, links: seq<GraphLink>, claimed: set<string>,
                       ghost runs: seq<Run>)
      returns (stop: bool, nodes': seq<GraphNode>, links': seq<GraphLink>, claimed': set<string>, ghost runs': seq<Run>)
      requires Valid() && i < |projects.keys| && claimed == DA.StrIds(nodes)
      requires RanUpTo(fs, projects, runs) && |runs| == i && nodes == RunNodes(runs) && links == RunLinks(runs)
      requires Quiet(token) ==> ChoicesMatch(fs, projects, runs)
      modifies reactAnalyzer, token
      ensures Valid()
      ensures token != null ==> token.polls >= old(token.polls)
      ensures stop <==> token != null && old(token.polls) >= token.signalAfter
      ensures stop ==> !Quiet(token) && runs' == runs
      ensures !stop ==> (claimed' == DA.StrIds(nodes') &&
        RanUpTo(fs, projects, runs') && |runs'| == i + 1 && nodes' == RunNodes(runs') && links' == RunLinks(runs') &&
        (Quiet(token) ==> ChoicesMatch(fs, projects, runs')))
      ensures !stop && projects.m[projects.keys[i]].kind != "node" ==> nodes' == nodes && links' == links
    {
      nodes', links', claimed', runs' := nodes, links, claimed, runs;
      stop := Cancelled(token);
      if stop {
        return;
      }
      var root := projects.keys[i];
      var project := projects.m[root];
      ghost var run := Run(DA.ReactApp, None, false);
      if project.kind == "node" {
        var graph;
        graph, run := RunNodeProject(fs, root, token);
        DA.StrIdsAppend(nodes, DA.GraphNodes(graph));
        nodes' := nodes + DA.GraphNodes(graph);
        links' := links + DA.GraphLinks(graph);
        claimed' := claimed + DA.StrIds(DA.GraphNodes(graph));
      } else {
        // `getProjectType` only names the project in a log line.
        var _ := GetProjectType(project.kind);
      }
      assert ProjectRun(fs, root, project.kind, run);
      RanSnoc(fs, projects, runs, run);
      if Quiet(token) {
        ChoicesSnoc(fs, projects, runs, run);
      }
      runs' := runs + [run];
    }

    /** A Node project's run: its graph and what the analysis of that project answered. */
    method RunNodeProject(fs: FS, root: Path, token: CancellationToken?) returns (graph: Option<GraphData>, ghost run: Run)
      requires Valid()
      modifies reactAnalyzer, token
      ensures Valid()
      ensures token != null ==> token.polls >= old(token.polls)
      ensures run.graph == graph && Answered(fs, root, run)
      ensures Quiet(token) ==> run.choice == ChooseAnalyzer(fs, root)
    {
      var choice;
      choice, graph := AnalyzeNodeProject(fs, root, token);
      run := Run(choice, graph, reactAnalyzer.layouts.keys != [] || reactAnalyzer.pages.keys != []);
    }

    /**
     * One Node project: the three probes, then the analyzer they pick; the
     * graph is `None` when that analyzer throws.
     */
    method AnalyzeNodeProject(fs: FS, root: Path, token: CancellationToken?) returns (choice: DA.Choice, graph: Option<GraphData>)
      requires Valid()
      modifies reactAnalyzer, token
      ensures Valid()
      ensures token != null ==> token.polls >= old(token.polls)
      ensures Quiet(token) ==> choice == ChooseAnalyzer(fs, root)
      ensures choice == DA.NodeBackend ==> graph == Some(NodeBackendGraph())
      ensures Answered(fs, root, Run(choice, graph, reactAnalyzer.layouts.keys != [] || reactAnalyzer.pages.keys != []))
    {
      var isNextJs := IsNextJsProject(fs, root, token);
      var isReactNative := IsReactNativeProject(fs, root, token);
      var isNodeBackend := IsNodejsBackendProject(fs, root, token);
      choice := Decide(isNodeBackend, isNextJs, isReactNative);
      match choice {
        case NodeBackend =>
          graph := Some(NodeBackendGraph());
        case NextApp =>
          var g := NextjsAnalyzer.AnalyzeNextProject(fs, root);
          graph := g.ToOption();
        case ReactNativeApp =>
          var g := ReactNativeAnalyzer.AnalyzeReactNativeProject(fs, root);
          graph := g.ToOption();
        case ReactApp =>
          var g := reactAnalyzer.AnalyzeReactProject(fs, root);
          graph := g.ToOption();
      }
    }

    /**
     * The second half of `analyzeDependencies`: collect, read and resolve the
     * source files, then format. No file is ever collected, so nothing is
     * read or recorded and the loop that could be cancelled never runs.
     */
    method AnalyzeFiles(fs: FS, rootPath: Path, ignore: seq<string>, claimed: set<string>, token: CancellationToken?)
      returns (cancelled: bool, g: GraphData)
      requires Valid()
      modifies this`fileContents, this`dependencies, this`projectRootCache, token
      ensures Valid()
      ensures token != null ==> token.polls >= old(token.polls)
      ensures dependencies == old(dependencies) && fileContents == old(fileContents) && !cancelled
      ensures g == IndexGraph(dependencies, fileContents, projects, log2)
    {
      var files := GetAllFiles(fs, rootPath, ignore, token);
      ghost var upTo;
      var kept;
      kept, upTo := ReadFiles(fs, files, claimed, token);
      assert files[..upTo] == [] && kept == [];
      ghost var done;
      cancelled, done := ComputeDependencies(kept, claimed, token);
      assert kept[..done] == [];
      g := FormatDependencyGraph();
    }

    /**
     * `analyzeDependencies`: detect the projects, run the specialised
     * analyzers, then the generic pass, which finds no file, so the generic
     * graph is the one the earlier analyses left. `None` stands for the
     * `undefined` a cancelled analysis answers; `runs` is what the
     * specialised analyzers produced, project by project.
     */
    method AnalyzeDependencies(fs: FS, rootPath: Path, ignore: seq<string>, token: CancellationToken?)
      returns (r: Result<Option<GraphData>, IoError>, ghost runs: seq<Run>)
      requires Valid()
      modifies this, reactAnalyzer, token
      ensures Valid()
      ensures dependencies == old(dependencies) && fileContents == old(fileContents)
      ensures r.Err? ==> !IsDirectory(fs, rootPath)
      ensures Quiet(token) ==> (r.Ok? <==> IsDirectory(fs, rootPath)) && (r.Ok? ==> r.value.Some?)
      ensures Quiet(token) && r.Ok? ==> projects == DA.ProjectMap(ProjectsBelow(fs, rootPath)) && ChoicesMatch(fs, projects, runs)
      ensures r.Ok? && r.value.Some? ==> (
        var generic := IndexGraph(dependencies, fileContents, projects, log2);
        RanUpTo(fs, projects, runs) && |runs| == |projects.keys| &&
        r.value.value == GraphData(generic.nodes + RunNodes(runs), generic.links + RunLinks(runs)))
      ensures r.Ok? && r.value.Some? && DA.NoNodeProject(projects) ==> RunNodes(runs) == [] && RunLinks(runs) == []
      ensures old(Raised(token)) ==> r == Ok(Some(IndexGraph(old(dependencies), old(fileContents), projects, log2))) && projects.keys == []
    {
      runs := [];
      var detected := DetectProjects(fs, rootPath, token);
      if detected.Err? {
        return Err(detected.error), runs;
      }
      projects := DA.ProjectMap(detected.value);
      var g;
      g, runs := AnalyzeDetected(fs, rootPath, ignore, token);
      r := Ok(g);
    }

    /** The part of `analyzeDependencies` that runs once the projects are known. */
    method AnalyzeDetected(fs: FS, rootPath: Path, ignore: seq<string>, token: CancellationToken?)
      returns (r: Option<GraphData>, ghost runs: seq<Run>)
      requires Valid()
      modifies this`fileContents, this`dependencies, this`projectRootCache, reactAnalyzer, token
      ensures Valid()
      ensures token != null ==> token.polls >= old(token.polls)
      ensures dependencies == old(dependencies) && fileContents == old(fileContents)
      ensures Quiet(token) ==> r.Some? && ChoicesMatch(fs, projects, runs)
      ensures r.Some? ==> (
        var generic := IndexGraph(dependencies, fileContents, projects, log2);
        RanUpTo(fs, projects, runs) && |runs| == |projects.keys| &&
        r.value == GraphData(generic.nodes + RunNodes(runs), generic.links + RunLinks(runs)))
      ensures r.Some? && DA.NoNodeProject(projects) ==> RunNodes(runs) == [] && RunLinks(runs) == []
      ensures old(Raised(token)) && projects.keys == [] ==> r == Some(IndexGraph(dependencies, fileContents, projects, log2))
      ensures old(Raised(token)) && projects.keys != [] ==> r == None
    {
      var stop, specificNodes, specificLinks, projectFiles;
      stop, specificNodes, specificLinks, projectFiles, runs := AnalyzeProjects(fs, token);
      if stop {
        return None, runs;
      }
      assert RanUpTo(fs, projects, runs) && |runs| == |projects.keys| && specificNodes == RunNodes(runs) && specificLinks == RunLinks(runs);
      ghost var generic0 := IndexGraph(dependencies, fileContents, projects, log2);
      var cancelled, g := AnalyzeFiles(fs, rootPath, ignore, projectFiles, token);
      if cancelled {
        return None, runs;
      }
      assert g == generic0;
      r := Some(GraphData(g.nodes + specificNodes, g.links + specificLinks));
      assert specificNodes == [] ==> g.nodes + specificNodes == g.nodes;
      assert specificLinks == [] ==> g.links + specificLinks == g.links;
    }
  }
}
