/**
 * `DependencyAnalyzer`: finds the projects of a workspace by their manifest
 * files, hands each Node project to the analyzer its dependencies call for,
 * and builds a generic graph of every other source file: files numbered
 * densely in the order they were recorded, linked by the import specifiers
 * that resolve to files already read.
 */
module DependencyAnalyzer {
  import opened Wrappers
  import opened Strings
  import opened Paths
  import opened SourceText
  import opened FileSystem
  import opened Graph
  import opened Sequences
  import opened Extractors
  import opened OrderedMaps
  import opened Cancellation
  import opened FrameworkConfig
  import opened LookupTables
  import NextjsAnalyzer
  import NodejsAnalyzer
  import ReactNativeAnalyzer
  import RA = ReactAnalyzer

  // ------------------------------------------------------------ detection

  /** A detected project: its type, the directory holding its manifest, and the manifest. */
  datatype Project = Project(kind: string, root: Path, configFile: Path)

  /** `projectMarkers`: the manifest file names and the project type each one marks. */
  function MarkerType(name: string): (r: Option<string>)
    ensures r.Some? <==> name in {"package.json", "composer.json", "pom.xml", "build.gradle", "requirements.txt",
                                  "go.mod", "Cargo.toml", "mix.exs", "pubspec.yaml", "Gemfile"}
    ensures r == Some("java") <==> name == "pom.xml" || name == "build.gradle"
  {
    if name == "package.json" then Some("node")
    else if name == "composer.json" then Some("php")
    else if name == "pom.xml" then Some("java")
    else if name == "build.gradle" then Some("java")
    else if name == "requirements.txt" then Some("python")
    else if name == "go.mod" then Some("go")
    else if name == "Cargo.toml" then Some("rust")
    else if name == "mix.exs" then Some("elixir")
    else if name == "pubspec.yaml" then Some("dart")
    else if name == "Gemfile" then Some("ruby")
    else None
  }

  /** Two marker files name the same type only for Java, which `pom.xml` and `build.gradle` both mark. */
  lemma MarkersShareOnlyJava(a: string, b: string)
    requires a != b && MarkerType(a).Some? && MarkerType(a) == MarkerType(b)
    ensures MarkerType(a) == Some("java")
  {
  }

  /** `projectMarkers[entry.name]` as written: a marker file name, or a name every object inherits, is truthy. */
  predicate MarkerAsWritten(name: string) {
    MarkerType(name).Some? || name in PrototypeKeys
  }

  /** A file named `constructor` marks a project in the source, its type an inherited function; the model sees no marker. */
  lemma ConstructorFileMarks()
    ensures MarkerAsWritten("constructor") && MarkerType("constructor").None?
  {
  }

  /** The directories `scanDir` does not enter. */
  predicate Unscanned(name: string) {
    name == "node_modules" || name == ".git"
  }

  /** A project the scan can report: a marker file directly inside its root, of the type the marker names. */
  predicate Genuine(fs: FS, p: Project) {
    p.configFile == p.root + [Basename(p.configFile)] && !IsDirectory(fs, p.configFile) &&
    MarkerType(Basename(p.configFile)) == Some(p.kind)
  }

  /** `scanDir(dir)` run to the end: the projects below `dir`, in walk order (entries in listing order, depth first). */
  function ProjectsBelow(fs: FS, dir: Path): (r: seq<Project>)
    requires IsDirectory(fs, dir)
    ensures forall p :: p in r ==> Genuine(fs, p)
    decreases Height(fs, dir), 1
  {
    ProjectsIn(fs, dir, fs[dir].names)
  }

  function ProjectsIn(fs: FS, dir: Path, names: seq<string>): (r: seq<Project>)
    requires IsDirectory(fs, dir)
    ensures forall p :: p in r ==> Genuine(fs, p)
    decreases Height(fs, dir), 0, |names|
  {
    if names == [] then [] else ProjectsAt(fs, dir, names[0]) + ProjectsIn(fs, dir, names[1..])
  }

  /** What one entry of the listing adds: a walked sub-directory's projects, or the project its marker names. */
  function ProjectsAt(fs: FS, dir: Path, name: string): (r: seq<Project>)
    requires IsDirectory(fs, dir)
    ensures forall p :: p in r ==> Genuine(fs, p)
    decreases Height(fs, dir), 0, 0
  {
    var full := dir + [name];
    assert IsDirectory(fs, full) ==> |full| <= Depth(fs);
    if IsDirectory(fs, full) then (if Unscanned(name) then [] else ProjectsBelow(fs, full))
    else if MarkerType(name).Some? then [Project(MarkerType(name).value, dir, full)]
    else []
  }

  /**
   * `new Map(projects.map(p => [p.root, p]))`: one entry per root, in the
   * order the roots were first seen, holding the last project seen there.
   */
  function ProjectMap(ps: seq<Project>): (r: OMap<Path, Project>)
    ensures r.Valid()
    decreases |ps|
  {
    if ps == [] then EmptyMap() else ProjectMap(ps[..|ps| - 1]).Put(ps[|ps| - 1].root, ps[|ps| - 1])
  }

  /** Two manifests in one directory make one project, of the type of the later one. */
  lemma {:induction false} ProjectMapLastWins(ps: seq<Project>, root: Path)
    ensures root in ProjectMap(ps).m <==> exists i :: 0 <= i < |ps| && ps[i].root == root
    ensures root in ProjectMap(ps).m ==> exists i :: (0 <= i < |ps| && ProjectMap(ps).m[root] == ps[i] &&
      forall j :: i < j < |ps| ==> ps[j].root != root)
    decreases |ps|
  {
    if ps != [] {
      var init := ps[..|ps| - 1];
      var last := ps[|ps| - 1];
      ProjectMapLastWins(init, root);
      assert forall i :: 0 <= i < |init| ==> init[i] == ps[i];
      if last.root == root {
        assert ps[|ps| - 1].root == root;
      } else if root in ProjectMap(init).m {
        var i :| 0 <= i < |init| && ProjectMap(init).m[root] == init[i] && forall j :: i < j < |init| ==> init[j].root != root;
        assert ps[i] == init[i] && forall j :: i < j < |ps| ==> ps[j].root != root;
      } else {
        assert forall i :: 0 <= i < |ps| ==> ps[i].root != root;
      }
    }
  }

  /**
   * `scanDir`: one read of the token on entry (a cancelled read ends only
   * this call: the caller goes on with its remaining entries), then the
   * listing; a `readdir` failure rejects the whole detection.
   */
  method ScanDir(fs: FS, token: CancellationToken?, dir: Path, acc: seq<Project>) returns (r: Result<seq<Project>, IoError>)
    modifies token
    ensures token != null ==> token.polls >= old(token.polls)
    ensures old(Raised(token)) ==> r == Ok(acc)
    ensures Quiet(token) ==> r == (if IsDirectory(fs, dir) then Ok(acc + ProjectsBelow(fs, dir)) else Err(ReadDir(fs, dir).error))
    ensures r.Err? ==> !IsDirectory(fs, dir)
    ensures r.Ok? ==> |r.value| >= |acc| && r.value[..|acc|] == acc && forall p :: p in r.value[|acc|..] ==> Genuine(fs, p)
    decreases Height(fs, dir), 2
  {
    var stop := Cancelled(token);
    if stop {
      return Ok(acc);
    }
    match ReadDir(fs, dir)
    case Err(e) =>
      return Err(e);
    case Ok(entries) =>
      var ps := ScanEntries(fs, token, dir, entries, acc);
      return Ok(ps);
  }

  /** The entries of one listing, in order: sub-directories walked, marker files recorded. */
  method ScanEntries(fs: FS, token: CancellationToken?, dir: Path, entries: seq<Dirent>, acc: seq<Project>) returns (ps: seq<Project>)
    requires ReadDir(fs, dir) == Ok(entries)
    modifies token
    ensures token != null ==> token.polls >= old(token.polls)
    ensures Quiet(token) ==> ps == acc + ProjectsIn(fs, dir, fs[dir].names)
    ensures |ps| >= |acc| && ps[..|acc|] == acc && forall p :: p in ps[|acc|..] ==> Genuine(fs, p)
    decreases Height(fs, dir), 1
  {
    ghost var names := fs[dir].names;
    ps := acc;
    var i := 0;
    while i < |entries|
      invariant 0 <= i <= |entries|
      invariant token != null ==> token.polls >= old(token.polls)
      invariant Quiet(token) ==> ps + ProjectsIn(fs, dir, names[i..]) == acc + ProjectsIn(fs, dir, names)
      invariant |ps| >= |acc| && ps[..|acc|] == acc && forall p :: p in ps[|acc|..] ==> Genuine(fs, p)
    {
      ghost var before := ps;
      assert ProjectsIn(fs, dir, names[i..]) == ProjectsAt(fs, dir, names[i]) + ProjectsIn(fs, dir, names[i + 1..]) by {
        assert names[i..][0] == names[i] && names[i..][1..] == names[i + 1..];
      }
      ps := ScanEntry(fs, token, dir, entries, i, acc, ps);
      if Quiet(token) {
        Sequences.ConcatStep(before, ProjectsIn(fs, dir, names[i..]), ProjectsAt(fs, dir, names[i]), ProjectsIn(fs, dir, names[i + 1..]), acc + ProjectsIn(fs, dir, names));
      }
      i := i + 1;
    }
    assert names[|entries|..] == [];
  }

  /** One entry of a listing: a sub-directory walked, a marker file recorded, anything else passed over. */
  method ScanEntry(fs: FS, token: CancellationToken?, dir: Path, entries: seq<Dirent>, i: nat, acc: seq<Project>, ps: seq<Project>) returns (ps': seq<Project>)
    requires ReadDir(fs, dir) == Ok(entries) && i < |entries|
    requires |ps| >= |acc| && ps[..|acc|] == acc && forall p :: p in ps[|acc|..] ==> Genuine(fs, p)
    modifies token
    ensures token != null ==> token.polls >= old(token.polls)
    ensures Quiet(token) ==> ps' == ps + ProjectsAt(fs, dir, fs[dir].names[i])
    ensures |ps'| >= |acc| && ps'[..|acc|] == acc && forall p :: p in ps'[|acc|..] ==> Genuine(fs, p)
    decreases Height(fs, dir), 0
  {
    var entry := entries[i];
    var full := dir + [entry.name];
    ps' := ps;
    if entry.isDir {
      if !Unscanned(entry.name) {
        assert |full| <= Depth(fs);
        var sub := ScanDir(fs, token, full, ps);
        ps' := sub.value;
        KeptGenuine(fs, acc, ps, ps');
      }
    } else if MarkerType(entry.name).Some? {
      var project := Project(MarkerType(entry.name).value, dir, full);
      assert Basename(full) == entry.name;
      ps' := ps + [project];
      KeptGenuine(fs, acc, ps, ps');
    }
  }

  /** Extending a list whose new part is genuine keeps the part after `acc` genuine. */
  lemma KeptGenuine(fs: FS, acc: seq<Project>, before: seq<Project>, after: seq<Project>)
    requires |before| >= |acc| && before[..|acc|] == acc && forall p :: p in before[|acc|..] ==> Genuine(fs, p)
    requires |after| >= |before| && after[..|before|] == before && forall p :: p in after[|before|..] ==> Genuine(fs, p)
    ensures |after| >= |acc| && after[..|acc|] == acc && forall p :: p in after[|acc|..] ==> Genuine(fs, p)
  {
    assert after[..|acc|] == after[..|before|][..|acc|];
    forall p | p in after[|acc|..]
      ensures Genuine(fs, p)
    {
      var k :| 0 <= k < |after[|acc|..]| && after[|acc|..][k] == p;
      if |acc| + k < |before| {
        assert p == before[|acc|..][k];
      } else {
        assert p == after[|before|..][|acc| + k - |before|];
      }
    }
  }

  /** `detectProjects`: the projects below the workspace root. */
  method DetectProjects(fs: FS, rootPath: Path, token: CancellationToken?) returns (r: Result<seq<Project>, IoError>)
    modifies token
    ensures token != null ==> token.polls >= old(token.polls)
    ensures old(Raised(token)) ==> r == Ok([])
    ensures Quiet(token) ==> r == (if IsDirectory(fs, rootPath) then Ok(ProjectsBelow(fs, rootPath)) else Err(ReadDir(fs, rootPath).error))
    ensures r.Err? ==> !IsDirectory(fs, rootPath)
    ensures r.Ok? ==> forall p :: p in r.value ==> Genuine(fs, p)
  {
    r := ScanDir(fs, token, rootPath, []);
    if r.Ok? {
      assert r.value[0..] == r.value;
    }
  }

  // ------------------------------------------------------------ source files

  /** `/\.(js|jsx|ts|tsx|json|vue|py|rb|java|php)$/` */
  predicate SourceFileName(name: string) {
    EndsWith(name, ".js") || EndsWith(name, ".jsx") || EndsWith(name, ".ts") || EndsWith(name, ".tsx") ||
    EndsWith(name, ".json") || EndsWith(name, ".vue") || EndsWith(name, ".py") || EndsWith(name, ".rb") ||
    EndsWith(name, ".java") || EndsWith(name, ".php")
  }

  /** The entries `getAllFiles` passes over, files and directories alike. */
  predicate Skipped(name: string, ignore: seq<string>) {
    name in ignore || name in FrameworkDirs
  }

  /** `getAllFiles(dir)` run to the end: the source files below `dir`; an unreadable directory yields none. */
  function FilesBelow(fs: FS, dir: Path, ignore: seq<string>): seq<Path>
    decreases Height(fs, dir), 1
  {
    if IsDirectory(fs, dir) then FilesIn(fs, dir, fs[dir].names, ignore) else []
  }

  function FilesIn(fs: FS, dir: Path, names: seq<string>, ignore: seq<string>): seq<Path>
    decreases Height(fs, dir), 0, |names|
  {
    if names == [] then [] else FilesAt(fs, dir, names[0], ignore) + FilesIn(fs, dir, names[1..], ignore)
  }

  /** What one entry adds: nothing when skipped, a sub-directory's files, or the entry itself when its name matches. */
  function FilesAt(fs: FS, dir: Path, name: string, ignore: seq<string>): seq<Path>
    decreases Height(fs, dir), 0, 0
  {
    var full := dir + [name];
    assert IsDirectory(fs, full) ==> |full| <= Depth(fs);
    if Skipped(name, ignore) then []
    else if IsDirectory(fs, full) then FilesBelow(fs, full, ignore)
    else if SourceFileName(name) then [full]
    else []
  }

  /** What a collected path is: a source file strictly below the directory, reached through no skipped entry. */
  predicate Collected(fs: FS, dir: Path, p: Path, ignore: seq<string>) {
    |p| > |dir| && p[..|dir|] == dir && !IsDirectory(fs, p) && SourceFileName(Basename(p)) &&
    forall k :: |dir| <= k < |p| ==> !Skipped(p[k], ignore)
  }

  lemma {:induction false} FilesBelowCollected(fs: FS, dir: Path, ignore: seq<string>)
    ensures forall p :: p in FilesBelow(fs, dir, ignore) ==> Collected(fs, dir, p, ignore)
    decreases Height(fs, dir), 1
  {
    if IsDirectory(fs, dir) {
      FilesInCollected(fs, dir, fs[dir].names, ignore);
    }
  }

  lemma {:induction false} FilesInCollected(fs: FS, dir: Path, names: seq<string>, ignore: seq<string>)
    ensures forall p :: p in FilesIn(fs, dir, names, ignore) ==> Collected(fs, dir, p, ignore)
    decreases Height(fs, dir), 0, |names|
  {
    if names != [] {
      FilesInCollected(fs, dir, names[1..], ignore);
      FilesAtCollected(fs, dir, names[0], ignore);
    }
  }

  lemma {:induction false} FilesAtCollected(fs: FS, dir: Path, name: string, ignore: seq<string>)
    ensures forall p :: p in FilesAt(fs, dir, name, ignore) ==> Collected(fs, dir, p, ignore)
    decreases Height(fs, dir), 0, 0
  {
    var full := dir + [name];
    if Skipped(name, ignore) {
    } else if IsDirectory(fs, full) {
      assert |full| <= Depth(fs);
      FilesBelowCollected(fs, full, ignore);
      forall p | p in FilesBelow(fs, full, ignore)
        ensures Collected(fs, dir, p, ignore)
      {
        CollectedUp(fs, dir, name, p, ignore);
      }
    } else if SourceFileName(name) {
      CollectedEntry(fs, dir, name, ignore);
    }
  }

  lemma CollectedUp(fs: FS, dir: Path, name: string, p: Path, ignore: seq<string>)
    requires Collected(fs, dir + [name], p, ignore) && !Skipped(name, ignore)
    ensures Collected(fs, dir, p, ignore)
  {
    var full := dir + [name];
    assert p[..|dir|] == p[..|full|][..|dir|];
    assert p[|dir|] == p[..|full|][|dir|] == name;
  }

  lemma CollectedEntry(fs: FS, dir: Path, name: string, ignore: seq<string>)
    requires !Skipped(name, ignore) && !IsDirectory(fs, dir + [name]) && SourceFileName(name)
    ensures Collected(fs, dir, dir + [name], ignore)
  {
    var full := dir + [name];
    assert full[..|dir|] == dir && full[|dir|] == name && Basename(full) == name;
  }

  /**
   * `getAllFiles`: the token is read before each entry, and a cancelled read
   * returns `[]` from that call only (its caller keeps what it had gathered
   * if no entry of its own is left); an unreadable directory yields `[]`.
   */
  method GetAllFiles(fs: FS, dir: Path, ignore: seq<string>, token: CancellationToken?) returns (files: seq<Path>)
    modifies token
    ensures token != null ==> token.polls >= old(token.polls)
    ensures old(Raised(token)) ==> files == []
    ensures Quiet(token) ==> files == FilesBelow(fs, dir, ignore)
    ensures forall p :: p in files ==> Collected(fs, dir, p, ignore)
    decreases Height(fs, dir), 1
  {
    files := [];
    match ReadDir(fs, dir)
    case Err(_) =>
      return;
    case Ok(entries) =>
      ghost var names := fs[dir].names;
      ghost var raised := Raised(token);
      var i := 0;
      while i < |entries|
        invariant 0 <= i <= |entries|
        invariant token != null ==> token.polls >= old(token.polls)
        invariant raised ==> i == 0 && files == []
        invariant Quiet(token) ==> files + FilesIn(fs, dir, names[i..], ignore) == FilesIn(fs, dir, names, ignore)
        invariant forall p :: p in files ==> Collected(fs, dir, p, ignore)
      {
        var stop := Cancelled(token);
        if stop {
          return [];
        }
        files := CollectEntry(fs, dir, ignore, token, entries, i, files);
        i := i + 1;
      }
      assert names[|entries|..] == [];
  }

  /** One entry of a listing: a sub-directory walked, a source file kept, a skipped name passed over. */
  method CollectEntry(fs: FS, dir: Path, ignore: seq<string>, token: CancellationToken?, entries: seq<Dirent>, i: nat, files: seq<Path>) returns (files': seq<Path>)
    requires ReadDir(fs, dir) == Ok(entries) && i < |entries|
    requires forall p :: p in files ==> Collected(fs, dir, p, ignore)
    requires Quiet(token) ==> files + FilesIn(fs, dir, fs[dir].names[i..], ignore) == FilesIn(fs, dir, fs[dir].names, ignore)
    modifies token
    ensures token != null ==> token.polls >= old(token.polls)
    ensures Quiet(token) ==> files' + FilesIn(fs, dir, fs[dir].names[i + 1..], ignore) == FilesIn(fs, dir, fs[dir].names, ignore)
    ensures forall p :: p in files' ==> Collected(fs, dir, p, ignore)
    decreases Height(fs, dir), 0
  {
    ghost var names := fs[dir].names;
    assert FilesIn(fs, dir, names[i..], ignore) == FilesAt(fs, dir, names[i], ignore) + FilesIn(fs, dir, names[i + 1..], ignore) by {
      assert names[i..][0] == names[i] && names[i..][1..] == names[i + 1..];
    }
    var entry := entries[i];
    files' := files;
    if !Skipped(entry.name, ignore) {
      var full := dir + [entry.name];
      if entry.isDir {
        assert |full| <= Depth(fs);
        var sub := GetAllFiles(fs, full, ignore, token);
        forall p | p in sub
          ensures Collected(fs, dir, p, ignore)
        {
          CollectedUp(fs, dir, entry.name, p, ignore);
        }
        files' := files + sub;
      } else if SourceFileName(entry.name) {
        CollectedEntry(fs, dir, entry.name, ignore);
        files' := files + [full];
      }
    }
    if Quiet(token) {
      Sequences.ConcatStep(files, FilesIn(fs, dir, names[i..], ignore), FilesAt(fs, dir, names[i], ignore), FilesIn(fs, dir, names[i + 1..], ignore), FilesIn(fs, dir, names, ignore));
    }
  }

  // ------------------------------------------------------------ specifiers

  /** `findRequires`: every `require('…')`. */
  function RequiresOf(stmts: seq<Stmt>): seq<string> {
    MatchAll(RequireCall, stmts)
  }

  /** `findImports`: the first quoted string after every `import`. */
  function ImportsOf(stmts: seq<Stmt>): seq<string> {
    MatchAll(ImportLazy, stmts)
  }

  /** `findRelativeImports`: the `from '.…'`, `import '.…'` and `require('.…')` matches, pattern by pattern. */
  function RelativeImportsOf(stmts: seq<Stmt>): seq<string> {
    MatchAll(FromDot, stmts) + MatchAll(ImportDot, stmts) + MatchAll(RequireDot, stmts)
  }

  /** `findStyleImports`: the `@import '…'` and `url('…')` matches. */
  function StyleImportsOf(stmts: seq<Stmt>): seq<string> {
    MatchAll(CssImportAny, stmts) + MatchAll(CssUrlAny, stmts)
  }

  /** `extractDependencies`: the four lists one after the other, repeats kept. */
  function ExtractDependencies(stmts: seq<Stmt>): seq<string> {
    RequiresOf(stmts) + ImportsOf(stmts) + RelativeImportsOf(stmts) + StyleImportsOf(stmts)
  }

  /** `findRequires` yields exactly the specifiers of the unspaced `require('…')` calls, each non-empty and quote-free. */
  lemma RequiresMembers(stmts: seq<Stmt>, s: string)
    ensures s in RequiresOf(stmts) <==> QuotedBody(s) && exists i :: 0 <= i < |stmts| && stmts[i] == Require(false, s)
  {
    MatchAllMembers(RequireCall, stmts, s);
    if QuotedBody(s) && exists i :: 0 <= i < |stmts| && stmts[i] == Require(false, s) {
      var i :| 0 <= i < |stmts| && stmts[i] == Require(false, s);
      assert Match(RequireCall, stmts[i]) == Some(s);
    }
  }

  /** A statement whose specifier `findImports` captures: an import with a quote-free clause, a bare import, a CSS `@import`. */
  predicate ImportFound(st: Stmt, s: string) {
    QuotedBody(s) && (st == SideEffectImport(s) || st == CssImport(s) || (st.Import? && NoQuote(st.clause) && st.spec == s))
  }

  /** `findImports` yields exactly the specifiers of the statements `ImportFound` names. */
  lemma ImportsMembers(stmts: seq<Stmt>, s: string)
    ensures s in ImportsOf(stmts) <==> exists i :: 0 <= i < |stmts| && ImportFound(stmts[i], s)
  {
    MatchAllMembers(ImportLazy, stmts, s);
    if exists i :: 0 <= i < |stmts| && ImportFound(stmts[i], s) {
      var i :| 0 <= i < |stmts| && ImportFound(stmts[i], s);
      assert Match(ImportLazy, stmts[i]) == Some(s);
    }
  }

  /** A statement whose specifier `findRelativeImports` captures: one of the three forms, with a specifier starting with `.`. */
  predicate RelativeFound(st: Stmt, s: string) {
    QuotedBody(s) && s[0] == '.' &&
    (st.Import? || st.ExportFrom? || st.SideEffectImport? || st.CssImport? || st.Require?) && st.spec == s
  }

  /** `findRelativeImports` yields exactly the `.`-specifiers of imports, re-exports, bare imports, CSS imports and requires. */
  lemma RelativeImportsMembers(stmts: seq<Stmt>, s: string)
    ensures s in RelativeImportsOf(stmts) <==> exists i :: 0 <= i < |stmts| && RelativeFound(stmts[i], s)
  {
    MatchAllMembers(FromDot, stmts, s);
    MatchAllMembers(ImportDot, stmts, s);
    MatchAllMembers(RequireDot, stmts, s);
    if exists i :: 0 <= i < |stmts| && RelativeFound(stmts[i], s) {
      var i :| 0 <= i < |stmts| && RelativeFound(stmts[i], s);
      var st := stmts[i];
      if st.Import? || st.ExportFrom? {
        assert Match(FromDot, st) == Some(s);
      } else if st.SideEffectImport? || st.CssImport? {
        assert Match(ImportDot, st) == Some(s);
      } else {
        assert Match(RequireDot, st) == Some(s);
      }
    }
  }

  /**
   * `findStyleImports` yields exactly the non-empty quote-free specifiers of
   * `@import` and `url(…)`: an empty one is skipped, as the JavaScript build
   * does (the TypeScript build throws on it, see `StyleImportsAsWritten`).
   */
  lemma StyleImportsMembers(stmts: seq<Stmt>, s: string)
    ensures s in StyleImportsOf(stmts) <==> QuotedBody(s) && exists i :: 0 <= i < |stmts| && (stmts[i] == CssImport(s) || stmts[i] == CssUrl(s))
  {
    MatchAllMembers(CssImportAny, stmts, s);
    MatchAllMembers(CssUrlAny, stmts, s);
    if QuotedBody(s) && exists i :: 0 <= i < |stmts| && (stmts[i] == CssImport(s) || stmts[i] == CssUrl(s)) {
      var i :| 0 <= i < |stmts| && (stmts[i] == CssImport(s) || stmts[i] == CssUrl(s));
      assert Match(CssImportAny, stmts[i]) == Some(s) || Match(CssUrlAny, stmts[i]) == Some(s);
    }
  }

  /** A style statement whose quotes hold nothing. */
  predicate EmptyStyleSpec(st: Stmt) {
    st == CssImport("") || st == CssUrl("")
  }

  /**
   * `findStyleImports` as the TypeScript build writes it: on `@import ''` or
   * `url('')` the outer pattern matches, the inner `/['"]([^'"]+)['"]/` does
   * not, and `![1]` reads a property of `null`, a TypeError.
   */
  function StyleImportsAsWritten(stmts: seq<Stmt>): (r: Result<seq<string>, string>)
    ensures r.Err? <==> exists i :: 0 <= i < |stmts| && EmptyStyleSpec(stmts[i])
    ensures r.Ok? ==> r.value == StyleImportsOf(stmts)
    decreases |stmts|
  {
    if stmts == [] then Ok([])
    else if EmptyStyleSpec(stmts[0]) then Err("TypeError: Cannot read properties of null (reading '1')")
    else
      match StyleImportsAsWritten(stmts[1..])
      case Err(e) =>
        assert forall i :: 0 <= i < |stmts[1..]| ==> stmts[1..][i] == stmts[i + 1];
        Err(e)
      case Ok(rest) =>
        assert forall i :: 1 <= i < |stmts| ==> stmts[i] == stmts[1..][i - 1];
        Ok(StyleImportsOf(stmts))
  }

  /** `url('')` makes the TypeScript scan throw, where the corrected finder, like the JavaScript build, finds nothing. */
  lemma EmptyUrlThrows()
    ensures StyleImportsAsWritten([CssUrl("")]).Err?
    ensures StyleImportsOf([CssUrl("")]) == [] && ExtractDependencies([CssUrl("")]) == []
  {
    var st := [CssUrl("")];
    assert EmptyStyleSpec(st[0]);
    assert st[1..] == [];
  }

  /** A statement `extractDependencies` takes a specifier from. */
  predicate Extracted(st: Stmt, s: string) {
    (QuotedBody(s) && st == Require(false, s)) || ImportFound(st, s) || RelativeFound(st, s) ||
    (QuotedBody(s) && (st == CssImport(s) || st == CssUrl(s)))
  }

  /** The specifier list of a file holds exactly the specifiers the four finders take from its statements. */
  lemma ExtractMembers(stmts: seq<Stmt>, s: string)
    ensures s in ExtractDependencies(stmts) <==> exists i :: 0 <= i < |stmts| && Extracted(stmts[i], s)
  {
    RequiresMembers(stmts, s);
    ImportsMembers(stmts, s);
    RelativeImportsMembers(stmts, s);
    StyleImportsMembers(stmts, s);
    if exists i :: 0 <= i < |stmts| && Extracted(stmts[i], s) {
      var i :| 0 <= i < |stmts| && Extracted(stmts[i], s);
      if QuotedBody(s) && stmts[i] == Require(false, s) {
        assert s in RequiresOf(stmts);
      } else if ImportFound(stmts[i], s) {
        assert s in ImportsOf(stmts);
      } else if RelativeFound(stmts[i], s) {
        assert s in RelativeImportsOf(stmts);
      } else {
        assert s in StyleImportsOf(stmts);
      }
    }
  }

  /** `import x from './a'` is found by `findImports` and again by `findRelativeImports`. */
  lemma RelativeImportTwice(clause: string, spec: string)
    requires NoQuote(clause) && QuotedBody(spec) && spec[0] == '.'
    ensures ExtractDependencies([Import(clause, spec)]) == [spec, spec]
  {
    var st := [Import(clause, spec)];
    assert st[1..] == [];
    assert RequiresOf(st) == [] && ImportsOf(st) == [spec];
    assert RelativeImportsOf(st) == [spec] && StyleImportsOf(st) == [];
  }

  // ------------------------------------------------------------ resolution

  /** The candidates `resolveDependencyPath` tries, in order: five extensions, the bare path, then `index.js`. */
  function DependencyCandidates(absPath: Path): (r: seq<Path>)
    ensures |r| == 7 && r[5] == absPath && r[6] == absPath + ["index.js"]
  {
    [AddSuffix(absPath, ".ts"), AddSuffix(absPath, ".js"), AddSuffix(absPath, ".tsx"), AddSuffix(absPath, ".jsx"),
     AddSuffix(absPath, ".json"), absPath, absPath + ["index.js"]]
  }

  /** The first candidate among the files read (`fileContents.has`). */
  function FirstKnown(known: set<Path>, cands: seq<Path>): (r: Option<Path>)
    ensures r.Some? ==> r.value in known && r.value in cands
    ensures r.None? ==> forall i :: 0 <= i < |cands| ==> cands[i] !in known
    decreases |cands|
  {
    if cands == [] then None
    else if cands[0] in known then Some(cands[0])
    else
      var r := FirstKnown(known, cands[1..]);
      assert forall i :: 0 < i < |cands| ==> cands[i] == cands[1..][i - 1];
      r
  }

  /** The candidate found is the earliest one read: every candidate before it is missing. */
  lemma {:induction false} FirstKnownEarliest(known: set<Path>, cands: seq<Path>)
    ensures FirstKnown(known, cands).Some? ==> exists i :: (0 <= i < |cands| && cands[i] == FirstKnown(known, cands).value &&
      forall j :: 0 <= j < i ==> cands[j] !in known)
    decreases |cands|
  {
    if cands != [] && cands[0] !in known && FirstKnown(known, cands[1..]).Some? {
      FirstKnownEarliest(known, cands[1..]);
      var i :| 0 <= i < |cands[1..]| && cands[1..][i] == FirstKnown(known, cands[1..]).value &&
        forall j :: 0 <= j < i ==> cands[1..][j] !in known;
      forall j | 0 <= j < i + 1
        ensures cands[j] !in known
      {
        if j > 0 {
          assert cands[j] == cands[1..][j - 1];
        }
      }
      assert cands[i + 1] == cands[1..][i];
    }
  }

  /** Candidate `i` is the path with the `i`-th extension of the loop; only the bare path has the empty one. */
  lemma CandidateAt(absPath: Path, i: nat)
    requires i < 6
    ensures [".ts", ".js", ".tsx", ".jsx", ".json", ""][i] == "" <==> i == 5
    ensures AddSuffix(absPath, [".ts", ".js", ".tsx", ".jsx", ".json", ""][i]) == DependencyCandidates(absPath)[i]
  {
  }

  /** One step of `FirstKnown` at position `i`. */
  lemma FirstKnownSkip(known: set<Path>, cands: seq<Path>, i: nat)
    requires i < |cands|
    ensures FirstKnown(known, cands[i..]) == if cands[i] in known then Some(cands[i]) else FirstKnown(known, cands[i + 1..])
  {
    DropHead(cands, i);
  }

  /** `resolveDependencyPath`: only a `.` specifier resolves, against the importing file's directory. */
  function ResolveDependency(known: set<Path>, dep: string, currentFile: Path): (r: Option<Path>)
    ensures r.Some? ==> StartsWith(dep, ".") && r.value in known
  {
    if StartsWith(dep, ".") then FirstKnown(known, DependencyCandidates(Resolve(Dirname(currentFile), dep))) else None
  }

  /** The extension order is fixed: with `abs + ext_i` read, the result is `abs + ext_k` for the first such k. */
  lemma DependencyPrecedence(known: set<Path>, dep: string, currentFile: Path, i: nat)
    requires StartsWith(dep, ".") && i < 5
    requires DependencyCandidates(Resolve(Dirname(currentFile), dep))[i] in known
    ensures exists k :: (0 <= k <= i && ResolveDependency(known, dep, currentFile) == Some(DependencyCandidates(Resolve(Dirname(currentFile), dep))[k]) &&
      forall j :: 0 <= j < k ==> DependencyCandidates(Resolve(Dirname(currentFile), dep))[j] !in known)
  {
    var cs := DependencyCandidates(Resolve(Dirname(currentFile), dep));
    var r := ResolveDependency(known, dep, currentFile);
    FirstKnownEarliest(known, cs);
    var k :| 0 <= k < |cs| && cs[k] == r.value && forall j :: 0 <= j < k ==> cs[j] !in known;
    assert k <= i;
  }

  /** `index.js` is tried only after every extension and the bare path are missing. */
  lemma IndexLast(known: set<Path>, dep: string, currentFile: Path)
    requires StartsWith(dep, ".")
    ensures var abs := Resolve(Dirname(currentFile), dep);
      ResolveDependency(known, dep, currentFile) == Some(abs + ["index.js"]) ==>
        forall j :: 0 <= j < 6 ==> DependencyCandidates(abs)[j] !in known
  {
    var abs := Resolve(Dirname(currentFile), dep);
    var cs := DependencyCandidates(abs);
    var r := ResolveDependency(known, dep, currentFile);
    if r == Some(abs + ["index.js"]) {
      FirstKnownEarliest(known, cs);
      var k :| 0 <= k < |cs| && cs[k] == r.value && forall j :: 0 <= j < k ==> cs[j] !in known;
      assert forall j :: 0 <= j < 6 ==> |cs[j]| != |abs| + 1 || abs == [];
      if abs == [] {
        assert forall j :: 0 <= j < 6 ==> cs[j] != ["index.js"];
      }
      assert k == 6;
    }
  }

  /**
   * The `dependencies` entry of one file: its specifiers resolved in order,
   * unresolved ones dropped, and paths claimed by a specialised analyzer
   * dropped again.
   */
  function DependenciesOf(known: set<Path>, deps: seq<string>, currentFile: Path, claimed: set<string>): (r: seq<Path>)
    ensures forall x :: x in r ==> x in known && PathString(x) !in claimed
    decreases |deps|
  {
    if deps == [] then []
    else
      var rest := DependenciesOf(known, deps[1..], currentFile, claimed);
      match ResolveDependency(known, deps[0], currentFile)
      case Some(p) =>
        if PathString(p) !in claimed then [p] + rest
        else rest
      case None => rest
  }

  // ------------------------------------------------------------ project roots

  /** The nearest directory from `dir` up, the filesystem root excluded, that is a detected project root. */
  function NearestRoot(roots: set<Path>, dir: Path): (r: Option<Path>)
    ensures r.Some? ==> r.value in roots && r.value != [] && |r.value| <= |dir| && r.value == dir[..|r.value|]
    ensures r.Some? ==> forall k :: |r.value| < k <= |dir| ==> dir[..k] !in roots
    ensures r.None? ==> forall k :: 1 <= k <= |dir| ==> dir[..k] !in roots
    decreases |dir|
  {
    if dir == [] then None
    else if dir in roots then (assert dir[..|dir|] == dir; Some(dir))
    else
      var r := NearestRoot(roots, Dirname(dir));
      assert forall k :: 0 <= k < |dir| ==> dir[..k] == Dirname(dir)[..k];
      assert dir[..|dir|] == dir;
      r
  }

  /** A cached project root lies strictly above the file, below the filesystem root. */
  predicate ProperAncestor(root: Path, file: Path) {
    0 < |root| < |file| && file[..|root|] == root
  }

  // ------------------------------------------------------------ the generic graph

  /** `calculateNodeSize`: three times the base-2 logarithm of the line count, kept within [8, 20]. */
  function NodeSize(log2: nat -> real, text: string): (r: real)
    ensures 8.0 <= r <= 20.0
    ensures 8.0 <= 3.0 * log2(|Split(text, '\n')|) <= 20.0 ==> r == 3.0 * log2(|Split(text, '\n')|)
  {
    var x := 3.0 * log2(|Split(text, '\n')|);
    if x < 8.0 then 8.0 else if x > 20.0 then 20.0 else x
  }

  /** `path.extname(file).slice(1) || 'file'` */
  function FileKind(file: Path): (r: string)
    ensures r != ""
  {
    var e := Ext(file);
    if |e| > 1 then e[1..] else "file"
  }

  /** The node of the file numbered `index`. */
  function IndexNode(index: nat, file: Path, contents: map<Path, Content>, log2: nat -> real): GraphNode {
    var text := if file in contents then contents[file].text else "";
    GraphNode(Idx(index), Basename(file), FileKind(file), if file in contents then Some(text) else None, 1,
      NodeSize(log2, text), None, None)
  }

  /** The nodes of `formatDependencyGraph`: file `i` of the recorded files is node `i`. */
  function IndexNodes(files: seq<Path>, contents: map<Path, Content>, log2: nat -> real): (r: seq<GraphNode>)
    ensures |r| == |files| && forall i :: 0 <= i < |files| ==> r[i] == IndexNode(i, files[i], contents, log2)
  {
    seq(|files|, i requires 0 <= i < |files| => IndexNode(i, files[i], contents, log2))
  }

  /** The position of `p` among the recorded files (`fileIndex.get`). */
  function IndexOf(files: seq<Path>, p: Path): (r: Option<nat>)
    ensures r.Some? ==> r.value < |files| && files[r.value] == p
    ensures r.None? ==> p !in files
    decreases |files|
  {
    if files == [] then None
    else if files[0] == p then Some(0)
    else match IndexOf(files[1..], p)
      case None => None
      case Some(i) => Some(i + 1)
  }

  /** The links from file `source`: one per dependency that is itself a recorded file, in order, repeats kept. */
  function LinksFrom(source: nat, deps: seq<Path>, files: seq<Path>): (r: seq<GraphLink>)
    decreases |deps|
  {
    if deps == [] then []
    else
      var rest := LinksFrom(source, deps[1..], files);
      match IndexOf(files, deps[0])
      case Some(j) => [GraphLink(Idx(source), Idx(j), 1, None)] + rest
      case None => rest
  }

  /** The links of `formatDependencyGraph`: file by file in recording order. */
  function IndexLinks(files: seq<Path>, deps: map<Path, seq<Path>>, from: nat): seq<GraphLink>
    requires from <= |files| && forall i :: 0 <= i < |files| ==> files[i] in deps
    decreases |files| - from
  {
    if from == |files| then [] else LinksFrom(from, deps[files[from]], files) + IndexLinks(files, deps, from + 1)
  }

  /** Every index link joins two numbered files. */
  predicate InRange(links: seq<GraphLink>, n: nat) {
    forall k :: 0 <= k < |links| ==> links[k].source.Idx? && links[k].source.i < n && links[k].target.Idx? && links[k].target.i < n
  }

  lemma {:induction false} LinksFromInRange(source: nat, deps: seq<Path>, files: seq<Path>)
    requires source < |files|
    ensures InRange(LinksFrom(source, deps, files), |files|)
    decreases |deps|
  {
    if deps != [] {
      LinksFromInRange(source, deps[1..], files);
      var rest := LinksFrom(source, deps[1..], files);
      match IndexOf(files, deps[0])
      case Some(j) =>
        var l := GraphLink(Idx(source), Idx(j), 1, None);
        assert forall k :: 1 <= k < |[l] + rest| ==> ([l] + rest)[k] == rest[k - 1];
      case None =>
    }
  }

  /** Every link's source and target lie in [0, n) for the n recorded files. */
  lemma {:induction false} IndexLinksInRange(files: seq<Path>, deps: map<Path, seq<Path>>, from: nat)
    requires from <= |files| && forall i :: 0 <= i < |files| ==> files[i] in deps
    ensures InRange(IndexLinks(files, deps, from), |files|)
    decreases |files| - from
  {
    if from < |files| {
      LinksFromInRange(from, deps[files[from]], files);
      IndexLinksInRange(files, deps, from + 1);
      var a := LinksFrom(from, deps[files[from]], files);
      var b := IndexLinks(files, deps, from + 1);
      assert forall k :: |a| <= k < |a + b| ==> (a + b)[k] == b[k - |a|];
      assert forall k :: 0 <= k < |a| ==> (a + b)[k] == a[k];
    }
  }

  /** The numbered files form a closed graph: every link joins two of its nodes. */
  lemma IndexGraphClosed(files: seq<Path>, deps: map<Path, seq<Path>>, contents: map<Path, Content>, log2: nat -> real)
    requires forall i :: 0 <= i < |files| ==> files[i] in deps
    ensures Closed(IndexNodes(files, contents, log2), IndexLinks(files, deps, 0))
  {
    var nodes := IndexNodes(files, contents, log2);
    var links := IndexLinks(files, deps, 0);
    IndexLinksInRange(files, deps, 0);
    assert forall i :: 0 <= i < |nodes| ==> nodes[i].id == Idx(i);
    ClosedByIndex(nodes, links);
  }

  /** A dependency listed twice gives two identical links. */
  lemma RepeatedDependency(source: nat, d: Path, files: seq<Path>)
    requires d in files
    ensures var j := IndexOf(files, d).value;
      LinksFrom(source, [d, d], files) == [GraphLink(Idx(source), Idx(j), 1, None), GraphLink(Idx(source), Idx(j), 1, None)]
  {
    var j := IndexOf(files, d).value;
    var l := GraphLink(Idx(source), Idx(j), 1, None);
    assert [d, d][1..] == [d] && [d][1..] == [];
    assert LinksFrom(source, [d], files) == [l] + LinksFrom(source, [], files);
    assert LinksFrom(source, [d, d], files) == [l] + LinksFrom(source, [d], files);
  }

  // ------------------------------------------------------------ the analysis state

  /** One entry of the `fileContents` list `analyzeDependencies` builds. */
  datatype FileRead = FileRead(file: Path, content: Content)

  /** A file `analyzeDependencies` keeps: not claimed by a specialised analyzer, readable, and not blank. */
  predicate Readable(fs: FS, claimed: set<string>, file: Path, c: Content) {
    PathString(file) !in claimed && ReadFile(fs, file) == Ok(c) && !IsBlank(c.text)
  }

  function StoredOne(fs: FS, file: Path, claimed: set<string>): seq<FileRead> {
    if PathString(file) in claimed then []
    else match ReadFile(fs, file)
      case Err(_) => []
      case Ok(c) => if IsBlank(c.text) then [] else [FileRead(file, c)]
  }

  /** The reads that succeed, in the order of the file list (`Promise.all` keeps it). */
  function Stored(fs: FS, files: seq<Path>, claimed: set<string>): seq<FileRead>
    decreases |files|
  {
    if files == [] then [] else Stored(fs, files[..|files| - 1], claimed) + StoredOne(fs, files[|files| - 1], claimed)
  }

  /** A read is kept exactly when its file is listed and readable. */
  lemma {:induction false} StoredMembers(fs: FS, files: seq<Path>, claimed: set<string>, file: Path, c: Content)
    ensures FileRead(file, c) in Stored(fs, files, claimed) <==> file in files && Readable(fs, claimed, file, c)
    decreases |files|
  {
    if files != [] {
      var init := files[..|files| - 1];
      var last := files[|files| - 1];
      StoredMembers(fs, init, claimed, file, c);
      assert files == init + [last];
      assert file in files <==> file in init || file == last;
    }
  }

  lemma StoredStep(fs: FS, files: seq<Path>, claimed: set<string>, i: nat)
    requires i < |files|
    ensures Stored(fs, files[..i + 1], claimed) == Stored(fs, files[..i], claimed) + StoredOne(fs, files[i], claimed)
  {
    assert files[..i + 1][..i] == files[..i];
  }

  function FilesOf(rs: seq<FileRead>): set<Path> {
    set k | 0 <= k < |rs| :: rs[k].file
  }

  /** `fileContents.set(file, content)`, read by read. */
  function Record(m: map<Path, Content>, rs: seq<FileRead>): (r: map<Path, Content>)
    ensures r.Keys == m.Keys + FilesOf(rs)
    decreases |rs|
  {
    if rs == [] then m
    else
      var last := rs[|rs| - 1];
      FilesOfSnoc(rs);
      Record(m, rs[..|rs| - 1])[last.file := last.content]
  }

  lemma FilesOfSnoc(rs: seq<FileRead>)
    requires rs != []
    ensures FilesOf(rs) == FilesOf(rs[..|rs| - 1]) + {rs[|rs| - 1].file}
  {
    var init := rs[..|rs| - 1];
    forall f | f in FilesOf(rs)
      ensures f in FilesOf(init) + {rs[|rs| - 1].file}
    {
      var k :| 0 <= k < |rs| && rs[k].file == f;
      if k < |init| {
        assert init[k] == rs[k];
      }
    }
    forall f | f in FilesOf(init)
      ensures f in FilesOf(rs)
    {
      var k :| 0 <= k < |init| && init[k].file == f;
      assert rs[k] == init[k];
    }
  }

  lemma {:induction false} RecordAppend(m: map<Path, Content>, a: seq<FileRead>, b: seq<FileRead>)
    ensures Record(m, a + b) == Record(Record(m, a), b)
    decreases |b|
  {
    if b != [] {
      assert (a + b)[..|a + b| - 1] == a + b[..|b| - 1];
      RecordAppend(m, a, b[..|b| - 1]);
    } else {
      assert a + b == a;
    }
  }

  /** The content recorded last for a file is the one read last. */
  lemma {:induction false} RecordLast(m: map<Path, Content>, rs: seq<FileRead>, k: nat)
    requires k < |rs| && forall j :: k < j < |rs| ==> rs[j].file != rs[k].file
    ensures Record(m, rs)[rs[k].file] == rs[k].content
    decreases |rs|
  {
    if k < |rs| - 1 {
      RecordLast(m, rs[..|rs| - 1], k);
    }
  }

  /** The `dependencies` entry `analyzeDependencies` sets for one read. */
  function EntryOf(known: set<Path>, read: FileRead, claimed: set<string>): seq<Path> {
    DependenciesOf(known, ExtractDependencies(read.content.stmts), read.file, claimed)
  }

  /** `dependencies.set(file, …)`, read by read. */
  function RecordDeps(d: OMap<Path, seq<Path>>, known: set<Path>, rs: seq<FileRead>, claimed: set<string>): (r: OMap<Path, seq<Path>>)
    requires d.Valid()
    ensures r.Valid() && r.m.Keys == d.m.Keys + FilesOf(rs)
    decreases |rs|
  {
    if rs == [] then d
    else
      var last := rs[|rs| - 1];
      FilesOfSnoc(rs);
      RecordDeps(d, known, rs[..|rs| - 1], claimed).Put(last.file, EntryOf(known, last, claimed))
  }

  /** The dependency map once the first `i` reads are handled. */
  ghost predicate Recorded(deps: OMap<Path, seq<Path>>, known: set<Path>, d0: OMap<Path, seq<Path>>, rs: seq<FileRead>, claimed: set<string>, i: nat) {
    d0.Valid() && i <= |rs| && FilesOf(rs) <= known && deps == RecordDeps(d0, known, rs[..i], claimed)
  }

  lemma RecordedFile(deps: OMap<Path, seq<Path>>, known: set<Path>, d0: OMap<Path, seq<Path>>, rs: seq<FileRead>, claimed: set<string>, i: nat)
    requires Recorded(deps, known, d0, rs, claimed, i) && i < |rs|
    ensures rs[i].file in known
  {
    assert rs[i].file in FilesOf(rs);
  }

  /** Recording the next read's entry handles one more read. */
  lemma RecordedStep(deps: OMap<Path, seq<Path>>, known: set<Path>, d0: OMap<Path, seq<Path>>, rs: seq<FileRead>, claimed: set<string>, i: nat)
    requires Recorded(deps, known, d0, rs, claimed, i) && i < |rs|
    ensures Recorded(deps.Put(rs[i].file, EntryOf(known, rs[i], claimed)), known, d0, rs, claimed, i + 1)
  {
    assert rs[..i + 1][..i] == rs[..i] && rs[..i + 1][i] == rs[i];
  }

  /** Recording only adds keys at the end; the files already there keep their numbers. */
  lemma {:induction false} RecordDepsGrown(d: OMap<Path, seq<Path>>, known: set<Path>, rs: seq<FileRead>, claimed: set<string>)
    requires d.Valid()
    ensures Grown(d, RecordDeps(d, known, rs, claimed))
    decreases |rs|
  {
    if rs == [] {
      assert d.keys[..|d.keys|] == d.keys;
    } else {
      var last := rs[|rs| - 1];
      var mid := RecordDeps(d, known, rs[..|rs| - 1], claimed);
      RecordDepsGrown(d, known, rs[..|rs| - 1], claimed);
      PutGrown(mid, last.file, EntryOf(known, last, claimed));
      GrownTrans(d, mid, mid.Put(last.file, EntryOf(known, last, claimed)));
    }
  }

  /** Every entry recorded lists files already read. */
  lemma {:induction false} RecordDepsKnown(d: OMap<Path, seq<Path>>, known: set<Path>, rs: seq<FileRead>, claimed: set<string>, f: Path)
    requires d.Valid() && f in RecordDeps(d, known, rs, claimed).m && f !in d.m
    ensures forall k :: 0 <= k < |RecordDeps(d, known, rs, claimed).m[f]| ==> RecordDeps(d, known, rs, claimed).m[f][k] in known
    decreases |rs|
  {
    var last := rs[|rs| - 1];
    if f != last.file {
      RecordDepsKnown(d, known, rs[..|rs| - 1], claimed, f);
    }
  }

  /** The generic graph of a `dependencies` map. */
  function IndexGraph(d: OMap<Path, seq<Path>>, contents: map<Path, Content>, log2: nat -> real): GraphData
    requires d.Valid()
  {
    assert forall i :: 0 <= i < |d.keys| ==> d.keys[i] in d.m;
    GraphData(IndexNodes(d.keys, contents, log2), IndexLinks(d.keys, d.m, 0))
  }

  /** The string identifiers among `nodes` (`typeof node.id === 'string'`). */
  function StrIds(nodes: seq<GraphNode>): set<string> {
    set k | 0 <= k < |nodes| && nodes[k].id.Str? :: nodes[k].id.s
  }

  lemma StrIdsAppend(a: seq<GraphNode>, b: seq<GraphNode>)
    ensures StrIds(a + b) == StrIds(a) + StrIds(b)
  {
    var ab := a + b;
    forall s | s in StrIds(ab)
      ensures s in StrIds(a) + StrIds(b)
    {
      var k :| 0 <= k < |ab| && ab[k].id.Str? && ab[k].id.s == s;
      if k < |a| {
        assert ab[k] == a[k];
      } else {
        assert ab[k] == b[k - |a|];
      }
    }
    forall s | s in StrIds(a)
      ensures s in StrIds(ab)
    {
      var k :| 0 <= k < |a| && a[k].id.Str? && a[k].id.s == s;
      assert ab[k] == a[k];
    }
    forall s | s in StrIds(b)
      ensures s in StrIds(ab)
    {
      var k :| 0 <= k < |b| && b[k].id.Str? && b[k].id.s == s;
      assert ab[|a| + k] == b[k];
    }
  }

  // ------------------------------------------------------------ choosing an analyzer

  datatype Choice = NodeBackend | NextApp | ReactNativeApp | ReactApp

  /** `'<name>' in (pkg.dependencies || {})`, false when package.json cannot be read or parsed. */
  predicate DependsOn(fs: FS, root: Path, name: string) {
    var d := RA.ManifestDependencies(fs, root);
    d.Some? && name in d.value
  }

  /** The analyzer a Node project goes to: Express before Next.js before React Native, React otherwise. */
  function ChooseAnalyzer(fs: FS, root: Path): Choice {
    if DependsOn(fs, root, "express") then NodeBackend
    else if DependsOn(fs, root, "next") then NextApp
    else if DependsOn(fs, root, "react-native") then ReactNativeApp
    else ReactApp
  }

  /** The React analyzer is the fallback: chosen exactly when none of the three packages is a dependency. */
  lemma ChooseAnalyzerSpec(fs: FS, root: Path)
    ensures ChooseAnalyzer(fs, root) == ReactApp <==> !DependsOn(fs, root, "express") && !DependsOn(fs, root, "next") && !DependsOn(fs, root, "react-native")
    ensures ChooseAnalyzer(fs, root) == NodeBackend <==> DependsOn(fs, root, "express")
    ensures ChooseAnalyzer(fs, root) == NextApp <==> DependsOn(fs, root, "next") && !DependsOn(fs, root, "express")
    ensures ChooseAnalyzer(fs, root) == ReactNativeApp <==> DependsOn(fs, root, "react-native") && !DependsOn(fs, root, "next") && !DependsOn(fs, root, "express")
  {
  }

  /** No detected project is a Node project. */
  predicate NoNodeProject(projects: OMap<Path, Project>)
    requires projects.Valid()
  {
    forall i :: 0 <= i < |projects.keys| ==> projects.m[projects.keys[i]].kind != "node"
  }

  /**
   * What the specialised analysis of one project left: its graph, `None`
   * when the analyzer rejected or was not run, and the React analyzer's
   * pages and layouts after it.
   */
  datatype Run = Run(graph: Option<GraphData>, pages: OMap<Path, RA.PageInfo>, layouts: OMap<Path, Content>)

  /** The run is the answer of the analyzer ChooseAnalyzer names for the project at `root`. */
  ghost predicate Dispatched(fs: FS, root: Path, run: Run) {
    match ChooseAnalyzer(fs, root)
    case NodeBackend => NodejsAnalyzer.Analyzed(fs, root, run.graph)
    case NextApp => NextjsAnalyzer.Analyzed(fs, root, run.graph)
    case ReactNativeApp => ReactNativeAnalyzer.Analyzed(fs, root, run.graph)
    case ReactApp => run.graph.Some? && RA.Analyzed(fs, root, run.graph.value, run.pages, run.layouts)
  }

  /** The first `|runs|` projects in order: a Node project ran its analyzer, any other project ran none. */
  ghost predicate RanUpTo(fs: FS, projects: OMap<Path, Project>, runs: seq<Run>)
    decreases |runs|
  {
    |runs| <= |projects.keys| &&
    (runs == [] || (RanUpTo(fs, projects, runs[..|runs| - 1]) && RunAt(fs, projects, runs, |runs| - 1)))
  }

  /** Run by run: the `j`-th run answers the `j`-th project. */
  lemma {:induction false} RanEach(fs: FS, projects: OMap<Path, Project>, runs: seq<Run>)
    requires RanUpTo(fs, projects, runs)
    ensures forall j :: 0 <= j < |runs| ==> RunAt(fs, projects, runs, j)
    decreases |runs|
  {
    if runs != [] {
      var init := runs[..|runs| - 1];
      RanEach(fs, projects, init);
      forall j | 0 <= j < |init|
        ensures RunAt(fs, projects, runs, j)
      {
        assert RunAt(fs, projects, init, j);
        assert init[j] == runs[j];
      }
    }
  }

  /** The `j`-th run answers the `j`-th project. */
  ghost predicate RunAt(fs: FS, projects: OMap<Path, Project>, runs: seq<Run>, j: nat) {
    j < |runs| && j < |projects.keys| && projects.keys[j] in projects.m &&
    ProjectRun(fs, projects.keys[j], projects.m[projects.keys[j]].kind, runs[j])
  }

  /** The run of a project of type `kind` at `root`: a Node project's analyzer answered it, any other project has no graph. */
  ghost predicate ProjectRun(fs: FS, root: Path, kind: string, run: Run) {
    if kind == "node" then Dispatched(fs, root, run) else run.graph.None?
  }

  /** One more project's run extends the runs, and its graph's nodes and links extend theirs. */
  lemma RanSnoc(fs: FS, projects: OMap<Path, Project>, runs: seq<Run>, run: Run)
    requires projects.Valid() && RanUpTo(fs, projects, runs) && |runs| < |projects.keys|
    requires ProjectRun(fs, projects.keys[|runs|], projects.m[projects.keys[|runs|]].kind, run)
    ensures RanUpTo(fs, projects, runs + [run])
    ensures RunNodes(runs + [run]) == RunNodes(runs) + GraphNodes(run.graph) && RunLinks(runs + [run]) == RunLinks(runs) + GraphLinks(run.graph)
  {
    var rs := runs + [run];
    assert rs[..|runs|] == runs;
    assert RunAt(fs, projects, rs, |runs|);
  }

  function GraphNodes(g: Option<GraphData>): seq<GraphNode> {
    if g.Some? then g.value.nodes else []
  }

  function GraphLinks(g: Option<GraphData>): seq<GraphLink> {
    if g.Some? then g.value.links else []
  }

  /** The nodes of the runs' graphs, concatenated in project order. */
  function RunNodes(runs: seq<Run>): seq<GraphNode> {
    if runs == [] then [] else RunNodes(runs[..|runs| - 1]) + GraphNodes(runs[|runs| - 1].graph)
  }

  /** The links of the runs' graphs, concatenated in project order. */
  function RunLinks(runs: seq<Run>): seq<GraphLink> {
    if runs == [] then [] else RunLinks(runs[..|runs| - 1]) + GraphLinks(runs[|runs| - 1].graph)
  }

  /**
   * `DependencyAnalyzer`: the dependency lists, file contents and project
   * roots found so far, which persist from one analysis to the next, and
   * the React analyzer it owns (whose pages persist too).
   */
  class DependencyAnalyzer {
    var dependencies: OMap<Path, seq<Path>>
    var fileContents: map<Path, Content>
    var projects: OMap<Path, Project>
    var projectRootCache: map<Path, Path>
    const reactAnalyzer: RA.ReactAnalyzer
    /** `Math.log2`. */
    const log2: nat -> real

    ghost predicate Valid()
      reads this, reactAnalyzer
    {
      dependencies.Valid() && projects.Valid() && reactAnalyzer.Valid() &&
      dependencies.m.Keys <= fileContents.Keys &&
      forall f :: f in projectRootCache ==> ProperAncestor(projectRootCache[f], f)
    }

    constructor (log2: nat -> real)
      ensures Valid() && fresh(reactAnalyzer) && this.log2 == log2
      ensures dependencies.keys == [] && fileContents == map[] && projects.keys == [] && projectRootCache == map[]
    {
      dependencies := EmptyMap();
      fileContents := map[];
      projects := EmptyMap();
      projectRootCache := map[];
      reactAnalyzer := new RA.ReactAnalyzer();
      this.log2 := log2;
    }

    /**
     * `findProjectRoot`: a cached answer first; otherwise the nearest detected
     * root above the file, the filesystem root excluded, which is cached, or
     * else the file's directory, which is not.
     */
    method FindProjectRoot(filePath: Path) returns (root: Path)
      requires Valid()
      modifies this`projectRootCache
      ensures Valid()
      ensures filePath in old(projectRootCache) ==> root == old(projectRootCache)[filePath] && projectRootCache == old(projectRootCache)
      ensures filePath !in old(projectRootCache) ==>
        match NearestRoot(projects.m.Keys, Dirname(filePath))
        case Some(r) => root == r && projectRootCache == old(projectRootCache)[filePath := r]
        case None => root == Dirname(filePath) && projectRootCache == old(projectRootCache)
    {
      if filePath in projectRootCache {
        return projectRootCache[filePath];
      }
      var currentDir := Dirname(filePath);
      while currentDir != Dirname(currentDir)
        invariant NearestRoot(projects.m.Keys, Dirname(filePath)) == NearestRoot(projects.m.Keys, currentDir)
        invariant projectRootCache == old(projectRootCache)
        decreases |currentDir|
      {
        if currentDir in projects.m {
          projectRootCache := projectRootCache[filePath := currentDir];
          return currentDir;
        }
        currentDir := Dirname(currentDir);
      }
      return Dirname(filePath);
    }

    /** `resolveDependencyPath`: the extension loop, with `index.js` tried right after the bare path. */
    method ResolveDependencyPath(dep: string, currentFile: Path) returns (r: Option<Path>)
      ensures r == ResolveDependency(fileContents.Keys, dep, currentFile)
    {
      if !StartsWith(dep, ".") {
        return None;
      }
      var absPath := Resolve(Dirname(currentFile), dep);
      var exts := [".ts", ".js", ".tsx", ".jsx", ".json", ""];
      ghost var cands := DependencyCandidates(absPath);
      var i := 0;
      while i < |exts|
        invariant 0 <= i <= |exts|
        invariant forall j :: 0 <= j < i ==> cands[j] !in fileContents
        invariant i < |exts| ==> FirstKnown(fileContents.Keys, cands) == FirstKnown(fileContents.Keys, cands[i..])
        invariant i == |exts| ==> FirstKnown(fileContents.Keys, cands) == None
      {
        var ext := exts[i];
        CandidateAt(absPath, i);
        var p := AddSuffix(absPath, ext);
        FirstKnownSkip(fileContents.Keys, cands, i);
        if p in fileContents {
          return Some(p);
        }
        if ext == "" {
          var index := absPath + ["index.js"];
          FirstKnownSkip(fileContents.Keys, cands, i + 1);
          assert cands[i + 2..] == [];
          if index in fileContents {
            return Some(index);
          }
        }
        i := i + 1;
      }
      return None;
    }

    /**
     * The file reads of `analyzeDependencies`: the token is read once per
     * file before any read starts, a cancelled read skipping that file;
     * claimed, unreadable and blank files are skipped too.
     */
    method ReadFiles(fs: FS, files: seq<Path>, claimed: set<string>, token: CancellationToken?) returns (rs: seq<FileRead>, ghost upTo: nat)
      requires Valid()
      modifies this`fileContents, token
      ensures Valid()
      ensures token != null ==> token.polls >= old(token.polls)
      ensures upTo <= |files| && rs == Stored(fs, files[..upTo], claimed)
      ensures fileContents == Record(old(fileContents), rs)
      ensures Quiet(token) ==> upTo == |files|
      ensures old(Raised(token)) ==> upTo == 0
    {
      rs := [];
      upTo := 0;
      ghost var stopped := false;
      var i := 0;
      while i < |files|
        invariant 0 <= i <= |files|
        invariant Valid()
        invariant token != null ==> token.polls >= old(token.polls)
        invariant upTo <= i && rs == Stored(fs, files[..upTo], claimed)
        invariant fileContents == Record(old(fileContents), rs)
        invariant !stopped ==> upTo == i
        invariant stopped ==> token != null && token.polls > token.signalAfter
        invariant old(Raised(token)) ==> upTo == 0 && (i > 0 ==> stopped)
      {
        var stop := Cancelled(token);
        if stop {
          stopped := true;
        } else {
          rs := ReadNext(fs, files, claimed, i, rs, old(fileContents));
          upTo := i + 1;
        }
        i := i + 1;
      }
      assert files[..|files|] == files;
    }

    /** The read of `files[i]` once the token let it through: the reads so far grow by its own. */
    method ReadNext(fs: FS, files: seq<Path>, claimed: set<string>, i: nat, rs: seq<FileRead>, ghost f0: map<Path, Content>) returns (rs': seq<FileRead>)
      requires Valid() && i < |files| && rs == Stored(fs, files[..i], claimed) && fileContents == Record(f0, rs)
      modifies this`fileContents
      ensures Valid()
      ensures rs' == Stored(fs, files[..i + 1], claimed) && fileContents == Record(f0, rs')
    {
      var kept := ReadOne(fs, files[i], claimed);
      rs' := rs + kept;
      StoredStep(fs, files, claimed, i);
      RecordAppend(f0, rs, kept);
    }

    /** One file's read: kept when unclaimed, readable and not blank, and then recorded. */
    method ReadOne(fs: FS, file: Path, claimed: set<string>) returns (kept: seq<FileRead>)
      requires Valid()
      modifies this`fileContents
      ensures Valid()
      ensures kept == StoredOne(fs, file, claimed) && fileContents == Record(old(fileContents), kept)
    {
      kept := [];
      if PathString(file) !in claimed {
        match ReadFile(fs, file)
        case Ok(c) =>
          if !IsBlank(c.text) {
            fileContents := fileContents[file := c];
            kept := [FileRead(file, c)];
            assert kept[..0] == [];
          }
        case Err(_) =>
      }
    }

    /** The dependency loop: one read of the token per file, a cancelled read ending the loop. */
    method ComputeDependencies(rs: seq<FileRead>, claimed: set<string>, token: CancellationToken?) returns (ghost done: nat)
      requires Valid() && FilesOf(rs) <= fileContents.Keys
      modifies this`dependencies, this`projectRootCache, token
      ensures Valid()
      ensures token != null ==> token.polls >= old(token.polls)
      ensures done <= |rs| && dependencies == RecordDeps(old(dependencies), fileContents.Keys, rs[..done], claimed)
      ensures Quiet(token) ==> done == |rs|
      ensures old(Raised(token)) ==> done == 0
    {
      ghost var d0 := dependencies;
      assert rs[..0] == [];
      var i := 0;
      while i < |rs|
        invariant 0 <= i <= |rs|
        invariant Valid() && Recorded(dependencies, fileContents.Keys, d0, rs, claimed, i)
        invariant token != null ==> token.polls >= old(token.polls)
        invariant old(Raised(token)) ==> i == 0
      {
        var stop := ComputeNext(d0, rs, claimed, token, i);
        if stop {
          return i;
        }
        i := i + 1;
      }
      assert rs[..|rs|] == rs;
      return |rs|;
    }

    /** The token read of one pass, then the pass itself unless the read cancels. */
    method ComputeNext(ghost d0: OMap<Path, seq<Path>>, rs: seq<FileRead>, claimed: set<string>, token: CancellationToken?, i: nat)
      returns (stop: bool)
      requires Valid() && Recorded(dependencies, fileContents.Keys, d0, rs, claimed, i) && i < |rs|
      modifies this`dependencies, this`projectRootCache, token
      ensures Valid()
      ensures token != null ==> token.polls == old(token.polls) + 1
      ensures stop <==> token != null && old(token.polls) >= token.signalAfter
      ensures stop ==> Recorded(dependencies, fileContents.Keys, d0, rs, claimed, i)
      ensures !stop ==> Recorded(dependencies, fileContents.Keys, d0, rs, claimed, i + 1)
    {
      stop := Cancelled(token);
      if !stop {
        ComputeStep(d0, rs, claimed, i);
      }
    }

    /** One pass of the dependency loop. */
    method ComputeStep(ghost d0: OMap<Path, seq<Path>>, rs: seq<FileRead>, claimed: set<string>, i: nat)
      requires Valid() && Recorded(dependencies, fileContents.Keys, d0, rs, claimed, i) && i < |rs|
      modifies this`dependencies, this`projectRootCache
      ensures Valid() && Recorded(dependencies, fileContents.Keys, d0, rs, claimed, i + 1)
    {
      ghost var d := dependencies;
      RecordedFile(d, fileContents.Keys, d0, rs, claimed, i);
      ComputeOne(rs[i], claimed);
      RecordedStep(d, fileContents.Keys, d0, rs, claimed, i);
    }

    /** One file of the dependency loop: its root looked up (and cached), then its resolved list recorded. */
    method ComputeOne(read: FileRead, claimed: set<string>)
      requires Valid() && read.file in fileContents
      modifies this`dependencies, this`projectRootCache
      ensures Valid()
      ensures dependencies == old(dependencies).Put(read.file, EntryOf(fileContents.Keys, read, claimed))
    {
      var _ := FindProjectRoot(read.file);
      var deps := DependenciesOf(fileContents.Keys, ExtractDependencies(read.content.stmts), read.file, claimed);
      dependencies := dependencies.Put(read.file, deps);
    }

    /** `formatDependencyGraph`: the recorded files numbered in order, then their links. */
    method FormatDependencyGraph() returns (g: GraphData)
      requires Valid()
      ensures g == IndexGraph(dependencies, fileContents, log2)
    {
      var nodes, fileIndex := NumberFiles(dependencies.keys, fileContents, log2);
      assert forall j :: 0 <= j < |dependencies.keys| ==> dependencies.keys[j] in dependencies.m;
      var links := AllLinks(dependencies.keys, dependencies.m, fileIndex);
      return GraphData(nodes, links);
    }

    /**
     * The project loop of `analyzeDependencies`: a cancelled read of the
     * token ends the whole analysis with an empty graph; a Node project goes
     * to the analyzer its package.json calls for, and an analyzer that fails
     * is passed over (`catch (error) { }`).
     */
    method AnalyzeProjects(fs: FS, token: CancellationToken?)
      returns (cancelled: bool, nodes: seq<GraphNode>, links: seq<GraphLink>, claimed: set<string>, ghost runs: seq<Run>)
      requires Valid()
      modifies reactAnalyzer, token
      ensures Valid()
      ensures token != null ==> token.polls >= old(token.polls)
      ensures claimed == StrIds(nodes)
      ensures NoNodeProject(projects) ==> nodes == [] && links == []
      ensures Quiet(token) ==> !cancelled
      ensures old(Raised(token)) ==> (cancelled <==> projects.keys != [])
      ensures cancelled ==> nodes == [] && links == []
      ensures !cancelled ==> RanUpTo(fs, projects, runs) && |runs| == |projects.keys| && nodes == RunNodes(runs) && links == RunLinks(runs)
    {
      nodes, links, claimed, runs := [], [], {}, [];
      cancelled := false;
      var i := 0;
      while i < |projects.keys|
        invariant 0 <= i <= |projects.keys|
        invariant Valid()
        invariant token != null ==> token.polls >= old(token.polls)
        invariant claimed == StrIds(nodes)
        invariant (forall j :: 0 <= j < i ==> projects.m[projects.keys[j]].kind != "node") ==> nodes == [] && links == []
        invariant old(Raised(token)) ==> i == 0
        invariant RanUpTo(fs, projects, runs) && |runs| == i && nodes == RunNodes(runs) && links == RunLinks(runs)
      {
        var stop := Cancelled(token);
        if stop {
          return true, [], [], {}, [];
        }
        nodes, links, claimed, runs := RunProject(fs, i, nodes, links, claimed, runs);
        i := i + 1;
      }
    }

    /** One project of the project loop: a Node project's graph, if its analyzer gives one, is appended. */
    method RunProject(fs: FS, i: nat, nodes: seq<GraphNode>, links: seq<GraphLink>, claimed: set<string>, ghost runs: seq<Run>)
      returns (nodes': seq<GraphNode>, links': seq<GraphLink>, claimed': set<string>, ghost runs': seq<Run>)
      requires Valid() && i < |projects.keys|
      requires RanUpTo(fs, projects, runs) && |runs| == i && nodes == RunNodes(runs) && links == RunLinks(runs) && claimed == StrIds(nodes)
      modifies reactAnalyzer
      ensures Valid()
      ensures RanUpTo(fs, projects, runs') && |runs'| == i + 1 && nodes' == RunNodes(runs') && links' == RunLinks(runs') && claimed' == StrIds(nodes')
      ensures projects.m[projects.keys[i]].kind != "node" ==> nodes' == nodes && links' == links
    {
      var root := projects.keys[i];
      var project := projects.m[root];
      var graph := None;
      if project.kind == "node" {
        graph := RunAnalyzer(fs, root);
      }
      ghost var run := Run(graph, reactAnalyzer.pages, reactAnalyzer.layouts);
      assert ProjectRun(fs, root, project.kind, run);
      RanSnoc(fs, projects, runs, run);
      runs' := runs + [run];
      StrIdsAppend(nodes, GraphNodes(graph));
      nodes' := nodes + GraphNodes(graph);
      links' := links + GraphLinks(graph);
      claimed' := claimed + StrIds(GraphNodes(graph));
    }

    /**
     * One Node project of the project loop: the analyzer its package.json
     * calls for, a rejected analysis giving no graph. The React analyzer
     * never rejects.
     */
    method RunAnalyzer(fs: FS, root: Path) returns (graph: Option<GraphData>)
      requires Valid()
      modifies reactAnalyzer
      ensures Valid()
      ensures Dispatched(fs, root, Run(graph, reactAnalyzer.pages, reactAnalyzer.layouts))
    {
      match ChooseAnalyzer(fs, root) {
        case NodeBackend =>
          var g := NodejsAnalyzer.AnalyzeNodeProject(fs, root);
          graph := g.ToOption();
        case NextApp =>
          var g := NextjsAnalyzer.AnalyzeNextProject(fs, root);
          graph := g.ToOption();
        case ReactNativeApp =>
          var g := ReactNativeAnalyzer.AnalyzeReactNativeProject(fs, root);
          graph := g.ToOption();
        case ReactApp =>
          var g := reactAnalyzer.AnalyzeReactProject(fs, root);
          graph := Some(g);
      }
    }

    /** `getAllFiles` and the file reads: what is kept and recorded in `fileContents`. */
    method ReadTree(fs: FS, rootPath: Path, ignore: seq<string>, claimed: set<string>, token: CancellationToken?) returns (kept: seq<FileRead>)
      requires Valid()
      modifies this`fileContents, token
      ensures Valid()
      ensures token != null ==> token.polls >= old(token.polls)
      ensures fileContents == Record(old(fileContents), kept)
      ensures Quiet(token) ==> kept == Stored(fs, FilesBelow(fs, rootPath, ignore), claimed)
      ensures old(Raised(token)) ==> kept == []
    {
      var files := GetAllFiles(fs, rootPath, ignore, token);
      ghost var quietFiles := Quiet(token);
      ghost var upTo;
      kept, upTo := ReadFiles(fs, files, claimed, token);
      if Quiet(token) {
        assert quietFiles && files[..|files|] == files;
      }
    }

    /** The second half of `analyzeDependencies`: read the files the specialised graphs do not hold, record their dependencies, format. */
    method AnalyzeFiles(fs: FS, rootPath: Path, ignore: seq<string>, claimed: set<string>, token: CancellationToken?) returns (g: GraphData)
      requires Valid()
      modifies this`fileContents, this`dependencies, this`projectRootCache, token
      ensures Valid()
      ensures token != null ==> token.polls >= old(token.polls)
      ensures Grown(old(dependencies), dependencies) && old(fileContents).Keys <= fileContents.Keys
      ensures g == IndexGraph(dependencies, fileContents, log2)
      ensures Quiet(token) ==> fileContents == Record(old(fileContents), Stored(fs, FilesBelow(fs, rootPath, ignore), claimed))
      ensures Quiet(token) ==>
        dependencies == RecordDeps(old(dependencies), fileContents.Keys, Stored(fs, FilesBelow(fs, rootPath, ignore), claimed), claimed)
      ensures old(Raised(token)) ==> dependencies == old(dependencies) && fileContents == old(fileContents)
    {
      ReadAndRecord(fs, rootPath, ignore, claimed, token);
      g := FormatDependencyGraph();
    }

    /** The read and resolve passes of `analyzeDependencies`, over the files the walk collects. */
    method ReadAndRecord(fs: FS, rootPath: Path, ignore: seq<string>, claimed: set<string>, token: CancellationToken?)
      requires Valid()
      modifies this`fileContents, this`dependencies, this`projectRootCache, token
      ensures Valid()
      ensures token != null ==> token.polls >= old(token.polls)
      ensures Grown(old(dependencies), dependencies) && old(fileContents).Keys <= fileContents.Keys
      ensures Quiet(token) ==> fileContents == Record(old(fileContents), Stored(fs, FilesBelow(fs, rootPath, ignore), claimed))
      ensures Quiet(token) ==>
        dependencies == RecordDeps(old(dependencies), fileContents.Keys, Stored(fs, FilesBelow(fs, rootPath, ignore), claimed), claimed)
      ensures old(Raised(token)) ==> dependencies == old(dependencies) && fileContents == old(fileContents)
    {
      ghost var raised := Raised(token);
      var kept := ReadTree(fs, rootPath, ignore, claimed, token);
      ghost var quietReads := Quiet(token);
      ghost var d0 := dependencies;
      assert FilesOf(kept) <= fileContents.Keys;
      var done := ComputeDependencies(kept, claimed, token);
      RecordDepsGrown(d0, fileContents.Keys, kept[..done], claimed);
      if Quiet(token) {
        assert quietReads && done == |kept| && kept[..|kept|] == kept;
      }
      if raised {
        assert kept == [] && kept[..done] == [];
      }
    }

    /**
     * `analyzeDependencies`: detect the projects, run the specialised
     * analyzers, then read, resolve and number the remaining source files;
     * the generic graph comes first. `cancelled` says the project loop saw
     * the token set; `claimed` is the set of paths the specialised graphs hold.
     */
    method AnalyzeDependencies(fs: FS, rootPath: Path, ignore: seq<string>, token: CancellationToken?)
      returns (r: Result<GraphData, IoError>, ghost cancelled: bool, ghost claimed: set<string>, ghost runs: seq<Run>)
      requires Valid()
      modifies this, reactAnalyzer, token
      ensures Valid()
      ensures Grown(old(dependencies), dependencies) && old(fileContents).Keys <= fileContents.Keys
      ensures r.Err? ==> !IsDirectory(fs, rootPath) && !cancelled
      ensures cancelled ==> r == Ok(GraphData([], []))
      ensures r.Ok? && !cancelled ==>
        RanUpTo(fs, projects, runs) && |runs| == |projects.keys| && claimed == StrIds(RunNodes(runs)) &&
        r.value == GraphData(IndexGraph(dependencies, fileContents, log2).nodes + RunNodes(runs), IndexGraph(dependencies, fileContents, log2).links + RunLinks(runs))
      ensures Quiet(token) ==> !cancelled && (r.Ok? <==> IsDirectory(fs, rootPath))
      ensures Quiet(token) && r.Ok? ==> projects == ProjectMap(ProjectsBelow(fs, rootPath))
      ensures Quiet(token) && r.Ok? ==> fileContents == Record(old(fileContents), Stored(fs, FilesBelow(fs, rootPath, ignore), claimed))
      ensures Quiet(token) && r.Ok? ==>
        dependencies == RecordDeps(old(dependencies), fileContents.Keys, Stored(fs, FilesBelow(fs, rootPath, ignore), claimed), claimed)
      ensures old(Raised(token)) ==> r == Ok(IndexGraph(old(dependencies), old(fileContents), log2)) && projects.keys == []
    {
      cancelled, claimed := false, {};
      var detected := DetectProjects(fs, rootPath, token);
      if detected.Err? {
        return Err(detected.error), false, {}, [];
      }
      projects := ProjectMap(detected.value);
      var g;
      g, cancelled, claimed, runs := AnalyzeDetected(fs, rootPath, ignore, token);
      r := Ok(g);
    }

    /** `analyzeDependencies` once the projects are recorded: the specialised analyzers, then the generic graph before theirs. */
    method AnalyzeDetected(fs: FS, rootPath: Path, ignore: seq<string>, token: CancellationToken?)
      returns (g: GraphData, ghost cancelled: bool, ghost claimed: set<string>, ghost runs: seq<Run>)
      requires Valid()
      modifies this`fileContents, this`dependencies, this`projectRootCache, reactAnalyzer, token
      ensures Valid()
      ensures token != null ==> token.polls >= old(token.polls)
      ensures Grown(old(dependencies), dependencies) && old(fileContents).Keys <= fileContents.Keys
      ensures cancelled ==> g == GraphData([], [])
      ensures !cancelled ==>
        RanUpTo(fs, projects, runs) && |runs| == |projects.keys| && claimed == StrIds(RunNodes(runs)) &&
        g == GraphData(IndexGraph(dependencies, fileContents, log2).nodes + RunNodes(runs), IndexGraph(dependencies, fileContents, log2).links + RunLinks(runs))
      ensures Quiet(token) ==> !cancelled
      ensures Quiet(token) ==> fileContents == Record(old(fileContents), Stored(fs, FilesBelow(fs, rootPath, ignore), claimed))
      ensures Quiet(token) ==>
        dependencies == RecordDeps(old(dependencies), fileContents.Keys, Stored(fs, FilesBelow(fs, rootPath, ignore), claimed), claimed)
      ensures old(Raised(token)) && projects.keys == [] ==> g == IndexGraph(old(dependencies), old(fileContents), log2)
    {
      var stop, specificNodes, specificLinks, projectFiles;
      stop, specificNodes, specificLinks, projectFiles, runs := AnalyzeProjects(fs, token);
      if stop {
        return GraphData([], []), true, {}, runs;
      }
      cancelled, claimed := false, projectFiles;
      assert old(Raised(token)) && projects.keys == [] ==> Raised(token) && specificNodes == [] && specificLinks == [];
      assert fileContents == old(fileContents) && dependencies == old(dependencies);
      g := AnalyzeRemaining(fs, rootPath, ignore, projectFiles, token, specificNodes, specificLinks);
    }

    /** The generic graph of the files no project claimed, followed by the projects' own nodes and links. */
    method AnalyzeRemaining(fs: FS, rootPath: Path, ignore: seq<string>, claimed: set<string>, token: CancellationToken?,
                            specificNodes: seq<GraphNode>, specificLinks: seq<GraphLink>) returns (g: GraphData)
      requires Valid()
      modifies this`fileContents, this`dependencies, this`projectRootCache, token
      ensures Valid()
      ensures token != null ==> token.polls >= old(token.polls)
      ensures Grown(old(dependencies), dependencies) && old(fileContents).Keys <= fileContents.Keys
      ensures g == GraphData(IndexGraph(dependencies, fileContents, log2).nodes + specificNodes, IndexGraph(dependencies, fileContents, log2).links + specificLinks)
      ensures Quiet(token) ==> fileContents == Record(old(fileContents), Stored(fs, FilesBelow(fs, rootPath, ignore), claimed))
      ensures Quiet(token) ==>
        dependencies == RecordDeps(old(dependencies), fileContents.Keys, Stored(fs, FilesBelow(fs, rootPath, ignore), claimed), claimed)
      ensures old(Raised(token)) && specificNodes == [] && specificLinks == [] ==> g == IndexGraph(old(dependencies), old(fileContents), log2)
    {
      var generic := AnalyzeFiles(fs, rootPath, ignore, claimed, token);
      g := GraphData(generic.nodes + specificNodes, generic.links + specificLinks);
      if specificNodes == [] && specificLinks == [] {
        assert generic.nodes + specificNodes == generic.nodes && generic.links + specificLinks == generic.links;
      }
    }
  }

  /** The first `forEach` of `formatDependencyGraph`: a node per file, and `fileIndex`. */
  method NumberFiles(keys: seq<Path>, contents: map<Path, Content>, log2: nat -> real) returns (nodes: seq<GraphNode>, fileIndex: map<Path, nat>)
    requires forall a, b :: 0 <= a < b < |keys| ==> keys[a] != keys[b]
    ensures nodes == IndexNodes(keys, contents, log2)
    ensures forall p :: p in fileIndex ==> IndexOf(keys, p) == Some(fileIndex[p])
    ensures forall p :: p !in fileIndex ==> IndexOf(keys, p).None?
  {
    nodes := [];
    fileIndex := map[];
    var i := 0;
    while i < |keys|
      invariant 0 <= i <= |keys|
      invariant nodes == IndexNodes(keys, contents, log2)[..i]
      invariant forall p :: p in fileIndex <==> p in keys[..i]
      invariant forall p :: p in fileIndex ==> IndexOf(keys, p) == Some(fileIndex[p])
    {
      nodes, fileIndex := NumberNext(keys, contents, log2, i, nodes, fileIndex);
      i := i + 1;
    }
    Sequences.ConcatPrefix(IndexNodes(keys, contents, log2), []);
  }

  /** One pass of NumberFiles's loop: the node and the index entry of `keys[i]`. */
  method NumberNext(keys: seq<Path>, contents: map<Path, Content>, log2: nat -> real, i: nat, nodes: seq<GraphNode>, fileIndex: map<Path, nat>)
    returns (nodes': seq<GraphNode>, fileIndex': map<Path, nat>)
    requires forall a, b :: 0 <= a < b < |keys| ==> keys[a] != keys[b]
    requires i < |keys|
    requires nodes == IndexNodes(keys, contents, log2)[..i]
    requires forall p :: p in fileIndex <==> p in keys[..i]
    requires forall p :: p in fileIndex ==> IndexOf(keys, p) == Some(fileIndex[p])
    ensures nodes' == IndexNodes(keys, contents, log2)[..i + 1]
    ensures forall p :: p in fileIndex' <==> p in keys[..i + 1]
    ensures forall p :: p in fileIndex' ==> IndexOf(keys, p) == Some(fileIndex'[p])
  {
    var file := keys[i];
    FileIndexStep(keys, fileIndex, fileIndex[file := i], i);
    fileIndex' := fileIndex[file := i];
    var text := if file in contents then contents[file].text else "";
    var node := GraphNode(Idx(i), Basename(file), FileKind(file), if file in contents then Some(text) else None, 1,
      NodeSize(log2, text), None, None);
    var all := IndexNodes(keys, contents, log2);
    assert all[i] == node;
    Sequences.TakeSnoc(all, i);
    nodes' := nodes + [node];
  }

  /** The second `forEach` of `formatDependencyGraph`: the links file by file. */
  method AllLinks(keys: seq<Path>, deps: map<Path, seq<Path>>, fileIndex: map<Path, nat>) returns (links: seq<GraphLink>)
    requires forall i :: 0 <= i < |keys| ==> keys[i] in deps
    requires forall p :: p in fileIndex ==> IndexOf(keys, p) == Some(fileIndex[p])
    requires forall p :: p !in fileIndex ==> IndexOf(keys, p).None?
    ensures links == IndexLinks(keys, deps, 0)
  {
    links := [];
    var i := 0;
    while i < |keys|
      invariant 0 <= i <= |keys|
      invariant links + IndexLinks(keys, deps, i) == IndexLinks(keys, deps, 0)
    {
      var next := LinksOf(i, deps[keys[i]], keys, fileIndex);
      Sequences.ConcatStep(links, IndexLinks(keys, deps, i), next, IndexLinks(keys, deps, i + 1), IndexLinks(keys, deps, 0));
      links := links + next;
      i := i + 1;
    }
  }

  /** The inner `deps.forEach` of `formatDependencyGraph`. */
  method LinksOf(source: nat, deps: seq<Path>, files: seq<Path>, fileIndex: map<Path, nat>) returns (links: seq<GraphLink>)
    requires forall p :: p in fileIndex ==> IndexOf(files, p) == Some(fileIndex[p])
    requires forall p :: p !in fileIndex ==> IndexOf(files, p).None?
    ensures links == LinksFrom(source, deps, files)
  {
    links := [];
    var j := 0;
    while j < |deps|
      invariant 0 <= j <= |deps|
      invariant links + LinksFrom(source, deps[j..], files) == LinksFrom(source, deps, files)
    {
      var dep := deps[j];
      assert deps[j..][0] == dep && deps[j..][1..] == deps[j + 1..];
      var here := if dep in fileIndex then [GraphLink(Idx(source), Idx(fileIndex[dep]), 1, None)] else [];
      Sequences.ConcatStep(links, LinksFrom(source, deps[j..], files), here, LinksFrom(source, deps[j + 1..], files), LinksFrom(source, deps, files));
      links := links + here;
      j := j + 1;
    }
    assert deps[|deps|..] == [];
  }

  /** Numbering one more key keeps `fileIndex` in step with `IndexOf`. */
  lemma FileIndexStep(keys: seq<Path>, fileIndex: map<Path, nat>, next: map<Path, nat>, i: nat)
    requires i < |keys| && forall a, b :: 0 <= a < b < |keys| ==> keys[a] != keys[b]
    requires next == fileIndex[keys[i] := i]
    requires forall p :: p in fileIndex <==> p in keys[..i]
    requires forall p :: p in fileIndex ==> IndexOf(keys, p) == Some(fileIndex[p])
    ensures forall p :: p in next <==> p in keys[..i + 1]
    ensures forall p :: p in next ==> IndexOf(keys, p) == Some(next[p])
  {
    IndexOfDistinct(keys, i);
    var pre, pre1 := keys[..i], keys[..i + 1];
    TakeSnoc(keys, i);
    forall p
      ensures p in next <==> p in pre1
    {
      assert p in pre1 <==> p in pre || p == keys[i];
    }
    forall p | p in next
      ensures IndexOf(keys, p) == Some(next[p])
    {
      if p != keys[i] {
        assert p in fileIndex;
      }
    }
  }

  /** With distinct keys, a key's position is its index. */
  lemma IndexOfDistinct(keys: seq<Path>, j: nat)
    requires j < |keys| && forall a, b :: 0 <= a < b < |keys| ==> keys[a] != keys[b]
    ensures IndexOf(keys, keys[j]) == Some(j)
    decreases j
  {
    if j > 0 {
      assert keys[0] != keys[j];
      IndexOfDistinct(keys[1..], j - 1);
    }
  }
}
