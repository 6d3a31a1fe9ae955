/**
 * The JavaScript build of the React analyzer (reactAnalyzer.js). It shares
 * detection, route-segment rewriting, page recognition and component
 * resolution with the TypeScript one, and differs in four ways: layouts are
 * also looked up through import statements; each page also records its
 * dependencies; `getRouteName` turns a page path into a route; and
 * `findProjectRoot` calls `fs.existsSync` on the `fs/promises` module,
 * which has no such export, so it throws below the filesystem root, and
 * with it `createFileNode` and every local import resolution.
 */
module ReactAnalyzerJs {
  import opened Wrappers
  import opened Strings
  import opened Paths
  import opened SourceText
  import opened FileSystem
  import opened Graph
  import opened Extractors
  import opened OrderedMaps
  import NextjsAnalyzer
  import RA = ReactAnalyzer
  import Sequences

  /** What the analyzer's own code throws: `fs.existsSync` is not a function of `fs/promises`. */
  datatype Thrown = ExistsSyncIsNotAFunction

  // ------------------------------------------------------------ routes

  /** `replace(/\.(jsx?|tsx?)$/, '')` */
  function StripScriptExtension(s: string): (r: string)
    ensures EndsWith(s, ".js") || EndsWith(s, ".jsx") || EndsWith(s, ".ts") || EndsWith(s, ".tsx") ==> |r| < |s| && r == s[..|r|]
    ensures !(EndsWith(s, ".js") || EndsWith(s, ".jsx") || EndsWith(s, ".ts") || EndsWith(s, ".tsx")) ==> r == s
  {
    if EndsWith(s, ".jsx") then s[..|s| - 4]
    else if EndsWith(s, ".tsx") then s[..|s| - 4]
    else if EndsWith(s, ".js") then s[..|s| - 3]
    else if EndsWith(s, ".ts") then s[..|s| - 3]
    else s
  }

  /** The replace chain of `getRouteName`, up to the slash clean-up, in its order. */
  function RouteBody(rel: string): string {
    var s1 := StripSuffix(StripSuffix(StripScriptExtension(rel), "/page"), "/index");
    var s2 := RA.RemoveFirstGroup(RA.ReplaceFirst(RA.Dynamic, RA.ReplaceFirst(RA.CatchAll, s1)));
    Join(Split(s2, '/'), "/")
  }

  /**
   * The slash clean-up of `getRouteName`: leading and trailing slashes
   * dropped, runs of slashes collapsed, and one slash put in front. The
   * result is rooted, has no doubled slash, and ends in a slash only when
   * it is the root route.
   */
  function Rooted(body: string): (r: string)
    ensures |r| > 0 && r[0] == '/'
    ensures !HasDouble(r, '/')
    ensures r == "/" || r[|r| - 1] != '/'
  {
    var a := TrimStart(body, '/');
    var b := TrimEnd(a, '/');
    var t := Collapse(b, '/');
    var r := "/" + t;
    assert |t| > 0 ==> t[0] != '/' by {
      if |b| > 0 {
        assert b[0] == a[0];
      }
    }
    forall i | 0 <= i < |r| - 1
      ensures !(r[i] == '/' && r[i + 1] == '/')
    {
      if i > 0 {
        assert r[i] == t[i - 1] && r[i + 1] == t[i];
      }
    }
    r
  }

  /** `getRouteName` on the path relative to the pages directory: the replace chain, then the slash clean-up. */
  function RouteName(rel: string): (r: string)
    ensures |r| > 0 && r[0] == '/'
    ensures !HasDouble(r, '/')
    ensures r == "/" || r[|r| - 1] != '/'
  {
    Rooted(RouteBody(rel))
  }

  /** `getRouteName(filePath, pagesDir)` */
  function GetRouteName(filePath: Path, pagesDir: Path): (r: string)
    ensures |r| > 0 && r[0] == '/' && !HasDouble(r, '/')
  {
    RouteName(Relative(pagesDir, filePath))
  }

  /** A page below the pages directory is routed by the segments between them. */
  lemma RouteOfDescendant(filePath: Path, pagesDir: Path)
    requires |pagesDir| <= |filePath| && filePath[..|pagesDir|] == pagesDir
    ensures GetRouteName(filePath, pagesDir) == RouteName(Join(filePath[|pagesDir|..], "/"))
  {
    RelativeToDescendant(pagesDir, filePath);
  }

  /** No bracket form matches in a string without `[`, and no group in one without `(`. */
  lemma Untouched(s: string)
    requires '[' !in s && '(' !in s
    ensures RA.RemoveFirstGroup(s) == s && RA.ReplaceFirst(RA.CatchAll, s) == s && RA.ReplaceFirst(RA.Dynamic, s) == s
  {
    assert RA.GroupSpan(s).None?;
    forall b: RA.Bracket, i | 0 <= i <= |s|
      ensures !RA.BracketAt(b, s, i)
    {
      var n := |RA.Opening(b)|;
      assert RA.Opening(b)[0] == '[';
      if i + n <= |s| {
        assert s[i..i + n][0] == s[i] != '[';
      }
    }
  }

  /** The pieces of `getRouteName` put together: a body that needs no slash clean-up is routed by itself, rooted. */
  lemma RouteFromSteps(rel: string, s1: string, s2: string, s3: string, s4: string)
    requires StripSuffix(StripSuffix(StripScriptExtension(rel), "/page"), "/index") == s1
    requires RA.ReplaceFirst(RA.CatchAll, s1) == s2 && RA.ReplaceFirst(RA.Dynamic, s2) == s3 && RA.RemoveFirstGroup(s3) == s4
    requires |s4| > 0 && s4[0] != '/' && s4[|s4| - 1] != '/' && !HasDouble(s4, '/')
    ensures RouteName(rel) == "/" + s4
  {
    JoinSplit(s4, '/');
    assert RouteBody(rel) == s4;
    CollapseIdentity(s4, '/');
  }

  /** A word has no `/`, `[`, `(` and does not end in `/index` or `/page`. */
  lemma WordFacts(w: string)
    requires IsWord(w)
    ensures '/' !in w && '[' !in w && '(' !in w && ']' !in w
    ensures !EndsWith(w, "/page") && !EndsWith(w, "/index")
  {
    if |w| >= 5 {
      assert w[|w| - 5..][0] == w[|w| - 5] && IsWordChar(w[|w| - 5]);
    }
    if |w| >= 6 {
      assert w[|w| - 6..][0] == w[|w| - 6] && IsWordChar(w[|w| - 6]);
    }
  }

  /** A word page file outside any folder, `name.tsx`, is routed `/name`: the `/page` suffix needs a slash before it. */
  lemma TopLevelRoute(name: string)
    requires IsWord(name)
    ensures RouteName(name + ".tsx") == "/" + name
  {
    var rel := name + ".tsx";
    assert rel[|rel| - 4..] == ".tsx" && rel[..|rel| - 4] == name;
    assert ".tsx"[1] != ".jsx"[1];
    assert StripScriptExtension(rel) == name;
    WordFacts(name);
    Untouched(name);
    assert !HasDouble(name, '/') && name[0] != '/' && name[|name| - 1] != '/' by {
      assert forall i :: 0 <= i < |name| ==> name[i] != '/';
    }
    RouteFromSteps(rel, name, name, name, name);
  }

  /**
   * What may follow a dynamic segment in a page's folder path for the route
   * to keep it as written: no group, no catch-all opening, single slashes,
   * and, when present, a slash first and a `]` last.
   */
  predicate KeptTail(t: string) {
    '(' !in t && (forall i :: 0 <= i < |t| && t[i] == '[' ==> i + 1 < |t| && t[i + 1] != '.') &&
    !HasDouble(t, '/') && (t != "" ==> t[0] == '/' && t[|t| - 1] == ']')
  }

  /** `<s>/page.tsx` loses its extension and then its `/page`; the `/index` strip does not apply to a folder path ending in `]`. */
  lemma PageFileStripped(s: string)
    requires |s| > 0 && s[|s| - 1] == ']'
    ensures StripSuffix(StripSuffix(StripScriptExtension(s + "/page.tsx"), "/page"), "/index") == s
  {
    var rel := s + "/page.tsx";
    assert rel[|rel| - 4..] == ".tsx" && rel[..|rel| - 4] == s + "/page";
    assert ".tsx"[1] != ".jsx"[1];
    var q := s + "/page";
    assert q[|q| - 5..] == "/page" && q[..|q| - 5] == s;
    if |s| >= 6 {
      assert s[|s| - 6..][5] == s[|s| - 1];
    }
  }

  /** A character of the folder path `dir/[name]<tail>`. */
  lemma DynamicPathAt(dir: string, name: string, t: string, i: nat)
    requires i < |dir| + 3 + |name| + |t|
    ensures var s, n := dir + "/" + "[" + name + "]" + t, |dir| + 3 + |name|;
      |s| == n + |t| &&
      s[i] == if i < |dir| then dir[i] else if i == |dir| then '/' else if i == |dir| + 1 then '['
              else if i < n - 1 then name[i - |dir| - 2] else if i == n - 1 then ']' else t[i - n]
  {
  }

  /** A character of the route body `dir/:name<tail>`. */
  lemma ParamPathAt(dir: string, name: string, t: string, i: nat)
    requires i < |dir| + 2 + |name| + |t|
    ensures var s, n := dir + "/" + ":" + name + t, |dir| + 2 + |name|;
      |s| == n + |t| &&
      s[i] == if i < |dir| then dir[i] else if i == |dir| then '/' else if i == |dir| + 1 then ':'
              else if i < n then name[i - |dir| - 2] else t[i - n]
  {
  }

  /** The only `[` of `dir/[name]` before the tail opens a word, so no catch-all matches. */
  lemma DynamicPathNoCatchAll(dir: string, name: string, t: string)
    requires IsWord(dir) && IsWord(name) && KeptTail(t)
    ensures var s := dir + "/" + "[" + name + "]" + t; forall i :: 0 <= i < |s| - 1 && s[i] == '[' ==> s[i + 1] != '.'
  {
    var s := dir + "/" + "[" + name + "]" + t;
    var n := |dir| + 3 + |name|;
    forall i | 0 <= i < |s| - 1 && s[i] == '['
      ensures s[i + 1] != '.'
    {
      DynamicPathAt(dir, name, t, i);
      DynamicPathAt(dir, name, t, i + 1);
      if i == |dir| + 1 {
        assert IsWordChar(name[0]);
      }
    }
  }

  /** `dir/:name<tail>` has no group, starts and ends in no slash and doubles none. */
  lemma ParamPathClean(dir: string, name: string, t: string)
    requires IsWord(dir) && IsWord(name) && KeptTail(t)
    ensures var s := dir + "/" + ":" + name + t;
      '(' !in s && |s| > 0 && s[0] != '/' && s[|s| - 1] != '/' && !HasDouble(s, '/')
  {
    var s := dir + "/" + ":" + name + t;
    var n := |dir| + 2 + |name|;
    forall i | 0 <= i < |s|
      ensures s[i] != '('
    {
      ParamPathAt(dir, name, t, i);
      if i < |dir| {
        assert IsWordChar(dir[i]);
      } else if |dir| + 1 < i < n {
        assert IsWordChar(name[i - |dir| - 2]);
      }
    }
    ParamPathAt(dir, name, t, 0);
    ParamPathAt(dir, name, t, |s| - 1);
    assert IsWordChar(dir[0]) && IsWordChar(name[|name| - 1]);
    forall i | 0 <= i < |s| - 1
      ensures !(s[i] == '/' && s[i + 1] == '/')
    {
      ParamPathAt(dir, name, t, i);
      ParamPathAt(dir, name, t, i + 1);
      if i < |dir| {
        assert IsWordChar(dir[i]);
      } else if |dir| + 1 < i < n {
        assert IsWordChar(name[i - |dir| - 2]);
      }
    }
  }

  /**
   * A page below a dynamic folder: `dir/[name]<tail>/page.tsx` is routed
   * `/dir/:name<tail>`. The first dynamic segment is rewritten, and only
   * it, so a second bracket in the tail stays as written.
   */
  lemma DynamicPageRoute(dir: string, name: string, t: string)
    requires IsWord(dir) && IsWord(name) && KeptTail(t)
    ensures RouteName(dir + "/" + "[" + name + "]" + t + "/page.tsx") == "/" + (dir + "/" + ":" + name + t)
  {
    var s1 := dir + "/" + "[" + name + "]" + t;
    var s3 := dir + "/" + ":" + name + t;
    assert s1[|s1| - 1] == ']' by {
      DynamicPathAt(dir, name, t, |s1| - 1);
    }
    PageFileStripped(s1);
    assert RA.ReplaceFirst(RA.CatchAll, s1) == s1 by {
      DynamicPathNoCatchAll(dir, name, t);
      RA.NoCatchAll(s1);
    }
    assert RA.ReplaceFirst(RA.Dynamic, s1) == s3 by {
      WordFacts(dir);
      assert '[' !in dir + "/";
      RA.DynamicAfter(dir + "/", name, t);
    }
    ParamPathClean(dir, name, t);
    assert RA.GroupSpan(s3).None?;
    RouteFromSteps(dir + "/" + "[" + name + "]" + t + "/page.tsx", s1, s1, s3, s3);
  }

  /** A second dynamic segment `/[y]` is a tail the route keeps: it is not rewritten, as `a/[x]/[y]` becomes `/a/:x/[y]`. */
  lemma SecondDynamicKept(y: string)
    requires IsWord(y)
    ensures KeptTail("/" + "[" + y + "]")
  {
    var t := "/" + "[" + y + "]";
    WordFacts(y);
    assert t[0] == '/' && t[1] == '[' && t[|t| - 1] == ']' && t[2] == y[0];
    assert forall i :: 2 <= i < |t| - 1 ==> t[i] == y[i - 2];
    assert forall i :: 0 <= i < |t| && t[i] == '[' ==> i == 1;
    assert forall i :: 0 <= i < |t| - 1 ==> !(t[i] == '/' && t[i + 1] == '/');
    assert '(' !in t;
  }

  // ------------------------------------------------------------ layouts

  /** The first candidate that is a file: `fs.access` and `fs.readFile` sit in one `try`, so a directory is passed over. */
  function FirstFile(fs: FS, cands: seq<Path>): (r: Option<Path>)
    ensures r.Some? ==> exists i :: 0 <= i < |cands| && cands[i] == r.value && IsFile(fs, r.value) && forall j :: 0 <= j < i ==> !IsFile(fs, cands[j])
    ensures r.None? ==> forall i :: 0 <= i < |cands| ==> !IsFile(fs, cands[i])
    decreases |cands|
  {
    if cands == [] then None
    else if IsFile(fs, cands[0]) then Some(cands[0])
    else
      var r := FirstFile(fs, cands[1..]);
      assert forall i :: 0 < i < |cands| ==> cands[i] == cands[1..][i - 1];
      if r.Some? then
        var i :| 0 <= i < |cands[1..]| && cands[1..][i] == r.value && IsFile(fs, r.value) && forall j :: 0 <= j < i ==> !IsFile(fs, cands[1..][j]);
        assert cands[i + 1] == cands[1..][i];
        r
      else r
  }

  /**
   * The walk of the app-router branch: the first layout file of the
   * nearest directory, from the page's own up, reached through directories
   * whose path mentions `app`.
   */
  function AppLayout(fs: FS, dir: Path): (r: Option<Path>)
    ensures r.Some? ==> IsFile(fs, r.value) && Basename(r.value) in RA.LayoutFiles && 1 <= |r.value| <= |dir| + 1 && Dirname(r.value) == dir[..|r.value| - 1]
    decreases |dir|
  {
    if !RA.MentionsApp(dir) then None
    else match FirstFile(fs, RA.LayoutCandidates(dir))
      case Some(p) =>
        assert dir[..|dir|] == dir;
        Some(p)
      case None =>
        if Dirname(dir) == dir then None
        else
          var r := AppLayout(fs, Dirname(dir));
          if r.Some? then
            assert Dirname(dir)[..|r.value| - 1] == dir[..|r.value| - 1];
            r
          else r
  }

  /** No layout file name is taken by a directory. */
  predicate LayoutNamesAreFiles(fs: FS) {
    forall p :: p in fs && p != [] && p[|p| - 1] in RA.LayoutFiles ==> fs[p].File?
  }

  lemma FirstFileIsFirstExisting(fs: FS, dir: Path)
    requires LayoutNamesAreFiles(fs)
    ensures FirstFile(fs, RA.LayoutCandidates(dir)) == FirstExisting(fs, RA.LayoutCandidates(dir))
  {
    var cs := RA.LayoutCandidates(dir);
    forall i | 0 <= i < |cs|
      ensures Exists(fs, cs[i]) ==> IsFile(fs, cs[i])
    {
      assert cs[i][|cs[i]| - 1] == RA.LayoutFiles[i];
    }
    FirstFileAgrees(fs, cs);
  }

  /** Among candidates none of which is a directory, the first file is the first existing path. */
  lemma {:induction false} FirstFileAgrees(fs: FS, cs: seq<Path>)
    requires forall i :: 0 <= i < |cs| ==> (Exists(fs, cs[i]) ==> IsFile(fs, cs[i]))
    ensures FirstFile(fs, cs) == FirstExisting(fs, cs)
    decreases |cs|
  {
    if cs != [] && !Exists(fs, cs[0]) {
      assert forall i :: 0 <= i < |cs[1..]| ==> cs[1..][i] == cs[i + 1];
      FirstFileAgrees(fs, cs[1..]);
    }
  }

  /** When no layout file name is a directory, the JavaScript walk finds what the TypeScript one finds. */
  lemma {:induction false} AppLayoutAgrees(fs: FS, dir: Path)
    requires LayoutNamesAreFiles(fs)
    ensures AppLayout(fs, dir) == RA.LayoutSearch(fs, dir)
    decreases |dir|
  {
    if RA.MentionsApp(dir) {
      FirstFileIsFirstExisting(fs, dir);
      if FirstFile(fs, RA.LayoutCandidates(dir)).None? && Dirname(dir) != dir {
        AppLayoutAgrees(fs, Dirname(dir));
      }
    }
  }

  const LayoutPatterns: seq<Pattern> := [LayoutsDirImport, LayoutClause, ParentLayoutsImport]

  /** The paths a layout import is tried as: the resolved capture itself, then with `.js`, `.jsx`, `.tsx` (never `.ts`). */
  function LayoutImportCandidates(base: Path): (r: seq<Path>)
    ensures |r| == 4 && r[0] == base
  {
    [base, AddSuffix(base, ".js"), AddSuffix(base, ".jsx"), AddSuffix(base, ".tsx")]
  }

  /**
   * The fallback of `findLayout`: for each pattern in turn, its first match
   * in the file, resolved against the page's directory; the first of its
   * candidates that exists, else on to the next pattern.
   */
  function ImportedLayout(fs: FS, stmts: seq<Stmt>, dirPath: Path, patterns: seq<Pattern>): (r: Option<Path>)
    ensures r.Some? ==> Exists(fs, r.value) && exists k :: (0 <= k < |patterns| && MatchFirst(patterns[k], stmts).Some? &&
      r.value in LayoutImportCandidates(Resolve(dirPath, MatchFirst(patterns[k], stmts).value)))
    ensures r.None? ==> forall k :: 0 <= k < |patterns| && MatchFirst(patterns[k], stmts).Some? ==>
      FirstExisting(fs, LayoutImportCandidates(Resolve(dirPath, MatchFirst(patterns[k], stmts).value))).None?
    decreases |patterns|
  {
    if patterns == [] then None
    else
      var rest := ImportedLayout(fs, stmts, dirPath, patterns[1..]);
      assert forall k :: 0 < k < |patterns| ==> patterns[k] == patterns[1..][k - 1];
      match MatchFirst(patterns[0], stmts)
      case Some(capture) =>
        var found := FirstExisting(fs, LayoutImportCandidates(Resolve(dirPath, capture)));
        if found.Some? then found
        else
          LaterPattern(stmts, dirPath, patterns, rest);
          rest
      case None =>
        LaterPattern(stmts, dirPath, patterns, rest);
        rest
  }

  /** A layout found through a later pattern is found through one of the patterns. */
  lemma LaterPattern(stmts: seq<Stmt>, dirPath: Path, patterns: seq<Pattern>, r: Option<Path>)
    requires |patterns| > 0
    requires r.Some? ==> exists k :: (0 <= k < |patterns[1..]| && MatchFirst(patterns[1..][k], stmts).Some? &&
      r.value in LayoutImportCandidates(Resolve(dirPath, MatchFirst(patterns[1..][k], stmts).value)))
    ensures r.Some? ==> exists k :: (0 <= k < |patterns| && MatchFirst(patterns[k], stmts).Some? &&
      r.value in LayoutImportCandidates(Resolve(dirPath, MatchFirst(patterns[k], stmts).value)))
  {
    if r.Some? {
      var k :| 0 <= k < |patterns[1..]| && MatchFirst(patterns[1..][k], stmts).Some? &&
        r.value in LayoutImportCandidates(Resolve(dirPath, MatchFirst(patterns[1..][k], stmts).value));
      assert patterns[k + 1] == patterns[1..][k];
    }
  }

  /** The layout the walk records, if the page is a Next.js page in an app directory. */
  function AppHit(fs: FS, projectType: Option<string>, filePath: Path): Option<Path> {
    var dir := Dirname(filePath);
    if projectType == Some("nextjs") && RA.InAppDir(dir) then AppLayout(fs, dir) else None
  }

  /** `findLayout`: the app-router walk first, then the import patterns whatever the project. */
  function LayoutOf(fs: FS, projectType: Option<string>, stmts: seq<Stmt>, filePath: Path): Option<Path> {
    var app := AppHit(fs, projectType, filePath);
    if app.Some? then app else ImportedLayout(fs, stmts, Dirname(filePath), LayoutPatterns)
  }

  /** Example: in `import X from '../layouts/Main'` the third pattern captures the bare name `Main`. */
  lemma ParentLayoutsCapture(clause: string)
    ensures Match(ParentLayoutsImport, Import(clause, "../layouts/Main")) == Some("Main")
  {
    assert "../layouts/Main"[..11] == "../layouts/" && "../layouts/Main"[11..] == "Main";
  }

  // ------------------------------------------------------------ the scan

  /** What `pages` records for a page file: the TypeScript fields plus its dependencies. */
  datatype PageInfo = PageInfo(content: Content, layout: Option<Path>, dependencies: seq<Path>, route: string, isAppDir: bool)

  /** Resolving the file's imports throws: some import is local and its directory is not the filesystem root. */
  predicate ImportsThrow(stmts: seq<Stmt>, filePath: Path) {
    Dirname(filePath) != [] && exists s :: s in MatchAll(ImportFrom, stmts) && RA.FollowedImport(s)
  }

  /** The scan of `dir` records no page and goes no deeper: the listing, the page read or the page's import resolution throws. */
  predicate ScanAborts(fs: FS, dir: Path) {
    !IsDirectory(fs, dir) ||
    (RA.PageFileIn(fs, dir).Some? &&
      (!IsFile(fs, RA.PageFileIn(fs, dir).value) || ImportsThrow(fs[RA.PageFileIn(fs, dir).value].content.stmts, RA.PageFileIn(fs, dir).value)))
  }

  /** The page file `p` of `dir` is recorded as read, with its layout, its dependencies, the route built from `route`, and the app-directory flag. */
  ghost predicate PageAt(fs: FS, pt: Option<string>, dir: Path, p: Path, route: string, pg: map<Path, PageInfo>) {
    IsFile(fs, p) && p in pg &&
    pg[p] == PageInfo(fs[p].content, LayoutOf(fs, pt, fs[p].content.stmts, p), RA.ComponentDependenciesOf(fs, fs[p].content.stmts, p),
      RA.BuildRouteFromPath(route), RA.InAppDir(dir))
  }

  /**
   * Everything a scan of `dir` with route path `route` records is in `pg`:
   * unless the scan aborts at `dir`, its page file, and recursively the
   * scan of every sub-directory not starting with `_` or `.`.
   */
  ghost predicate Scanned(fs: FS, pt: Option<string>, dir: Path, route: string, pg: map<Path, PageInfo>)
    decreases Height(fs, dir)
  {
    match ReadDir(fs, dir)
    case Err(_) => true
    case Ok(entries) =>
      ScanAborts(fs, dir) ||
      ((RA.PageFileIn(fs, dir).Some? ==> PageAt(fs, pt, dir, RA.PageFileIn(fs, dir).value, route, pg)) &&
       forall i :: 0 <= i < |entries| && RA.Directory(entries[i]) ==>
         assert |dir + [entries[i].name]| <= Depth(fs);
         Scanned(fs, pt, dir + [entries[i].name], RA.SubRoute(route, entries[i].name), pg))
  }

  /** The scan of the entry `e` of `dir`, when the scan descends into it, is recorded in `pg`. */
  ghost predicate SubScanned(fs: FS, pt: Option<string>, dir: Path, route: string, e: Dirent, pg: map<Path, PageInfo>) {
    RA.Directory(e) ==> Scanned(fs, pt, dir + [e.name], RA.SubRoute(route, e.name), pg)
  }

  /** The scans of the first `i` entries of `dir` are recorded in `pg`. */
  ghost predicate SubsScanned(fs: FS, pt: Option<string>, dir: Path, route: string, entries: seq<Dirent>, i: nat, pg: map<Path, PageInfo>) {
    forall j :: 0 <= j < i && j < |entries| ==> SubScanned(fs, pt, dir, route, entries[j], pg)
  }

  /** What the scan of `dir` recorded depends only on the entries below `dir`. */
  lemma {:induction false} ScannedFrame(fs: FS, pt: Option<string>, dir: Path, route: string, pg1: map<Path, PageInfo>, pg2: map<Path, PageInfo>)
    requires Scanned(fs, pt, dir, route, pg1)
    requires forall k :: RA.Below(dir, k) ==> RA.Agree(pg1, pg2, k)
    ensures Scanned(fs, pt, dir, route, pg2)
    decreases Height(fs, dir)
  {
    match ReadDir(fs, dir)
    case Err(_) =>
    case Ok(entries) =>
      if !ScanAborts(fs, dir) {
        var p := RA.PageFileIn(fs, dir);
        if p.Some? {
          assert RA.Below(dir, p.value);
        }
        forall i | 0 <= i < |entries| && RA.Directory(entries[i])
          ensures Scanned(fs, pt, dir + [entries[i].name], RA.SubRoute(route, entries[i].name), pg2)
        {
          var sub := dir + [entries[i].name];
          assert |sub| <= Depth(fs);
          forall k | RA.Below(sub, k)
            ensures RA.Agree(pg1, pg2, k)
          {
            RA.BelowChild(dir, entries[i].name, k);
          }
          ScannedFrame(fs, pt, sub, RA.SubRoute(route, entries[i].name), pg1, pg2);
        }
      }
  }

  /** The earlier entries' scans survive the scan of entry `b`, which changes only entries below it. */
  lemma SiblingKept(fs: FS, pt: Option<string>, dir: Path, route: string, a: Dirent, b: Dirent, pg1: map<Path, PageInfo>, pg2: map<Path, PageInfo>)
    requires RA.Directory(b) && SubScanned(fs, pt, dir, route, a, pg1) && SubScanned(fs, pt, dir, route, b, pg2)
    requires forall k :: !RA.Below(dir + [b.name], k) ==> RA.Agree(pg1, pg2, k)
    ensures SubScanned(fs, pt, dir, route, a, pg2)
  {
    if RA.Directory(a) && a.name != b.name {
      forall k | RA.Below(dir + [a.name], k)
        ensures RA.Agree(pg1, pg2, k)
      {
        RA.BelowApart(dir, a.name, b.name, k);
      }
      ScannedFrame(fs, pt, dir + [a.name], RA.SubRoute(route, a.name), pg1, pg2);
    }
  }

  /** The sub-directory loop's invariant survives the scan of entry `i`, which changes `pg1` into `pg2` below that entry only. */
  lemma SubdirectoryStep(fs: FS, pt: Option<string>, dir: Path, entries: seq<Dirent>, route: string, i: nat,
                         pg0: OMap<Path, PageInfo>, pg1: OMap<Path, PageInfo>, pg2: OMap<Path, PageInfo>)
    requires i < |entries| && RA.Directory(entries[i]) && Grown(pg1, pg2)
    requires RA.DeeperChanges(pg0.m, pg1.m, dir) && SubsScanned(fs, pt, dir, route, entries, i, pg1.m)
    requires forall k :: k in pg2.m ==> (k in pg1.m && pg2.m[k] == pg1.m[k]) || RA.Below(dir + [entries[i].name], k)
    requires Scanned(fs, pt, dir + [entries[i].name], RA.SubRoute(route, entries[i].name), pg2.m)
    ensures RA.DeeperChanges(pg0.m, pg2.m, dir) && SubsScanned(fs, pt, dir, route, entries, i + 1, pg2.m)
  {
    RA.FrameAgree(pg1, pg2, dir + [entries[i].name]);
    forall j | 0 <= j < i
      ensures SubScanned(fs, pt, dir, route, entries[j], pg2.m)
    {
      SiblingKept(fs, pt, dir, route, entries[j], entries[i], pg1.m, pg2.m);
    }
    forall k | k in pg2.m
      ensures (k in pg0.m && pg2.m[k] == pg0.m[k]) || (|k| >= |dir| + 2 && k[..|dir|] == dir)
    {
      if !(k in pg1.m && pg2.m[k] == pg1.m[k]) {
        RA.BelowChild(dir, entries[i].name, k);
      }
    }
  }

  /** The earlier page directories' scans survive the scan of directory `i`, which changes `pg1` into `pg2` below it only. */
  lemma PagesDirStep(fs: FS, pt: Option<string>, projectRoot: Path, i: nat, pg1: OMap<Path, PageInfo>, pg2: OMap<Path, PageInfo>)
    requires i < |RA.PagesDirs(pt)| && Grown(pg1, pg2)
    requires forall j :: 0 <= j < i ==> Scanned(fs, pt, JoinSpec(projectRoot, RA.PagesDirs(pt)[j]), "", pg1.m)
    requires Scanned(fs, pt, JoinSpec(projectRoot, RA.PagesDirs(pt)[i]), "", pg2.m)
    requires forall k :: k in pg2.m ==> (k in pg1.m && pg2.m[k] == pg1.m[k]) || RA.Below(JoinSpec(projectRoot, RA.PagesDirs(pt)[i]), k)
    ensures forall j :: 0 <= j <= i ==> Scanned(fs, pt, JoinSpec(projectRoot, RA.PagesDirs(pt)[j]), "", pg2.m)
  {
    RA.FrameAgree(pg1, pg2, JoinSpec(projectRoot, RA.PagesDirs(pt)[i]));
    forall j | 0 <= j < i
      ensures Scanned(fs, pt, JoinSpec(projectRoot, RA.PagesDirs(pt)[j]), "", pg2.m)
    {
      var dir := JoinSpec(projectRoot, RA.PagesDirs(pt)[j]);
      forall k | RA.Below(dir, k)
        ensures RA.Agree(pg1.m, pg2.m, k)
      {
        RA.PagesDirsApart(projectRoot, pt, i, j, k);
      }
      ScannedFrame(fs, pt, dir, "", pg1.m, pg2.m);
    }
  }

  /**
   * What `analyzeReactProject` answers for the project at `root`, where
   * `recorded` says the analyzer holds a layout or a page once its scan is
   * done: the empty graph when no flavour is detected, otherwise a throw
   * when something is recorded and the application node alone when not.
   */
  ghost predicate Answered(fs: FS, root: Path, g: Option<GraphData>, recorded: bool) {
    match RA.DetectedType(fs, root)
    case None => g == Some(GraphData([], []))
    case Some(t) => g == if recorded then None else Some(GraphData([RA.AppNode(t, root)], []))
  }

  /** One step of the resolution loop: the resolved file of the next specifier, if any, extends the prefix. */
  lemma ResolvedStep(fs: FS, specs: seq<string>, filePath: Path, i: nat, before: seq<Path>, hit: Option<Path>)
    requires i < |specs| && before + RA.ResolvedAll(fs, specs[i..], filePath) == RA.ResolvedAll(fs, specs, filePath)
    requires hit == RA.ResolveComponent(fs, specs[i], filePath)
    ensures before + RA.Piece(hit) + RA.ResolvedAll(fs, specs[i + 1..], filePath) == RA.ResolvedAll(fs, specs, filePath)
  {
    var rest := specs[i..];
    assert rest[0] == specs[i] && rest[1..] == specs[i + 1..];
    RA.ResolvedAllHead(fs, rest, filePath);
    Sequences.ConcatStep(before, RA.ResolvedAll(fs, rest, filePath), RA.Piece(hit), RA.ResolvedAll(fs, specs[i + 1..], filePath),
      RA.ResolvedAll(fs, specs, filePath));
  }

  class ReactAnalyzer {
    var pages: OMap<Path, PageInfo>
    var layouts: OMap<Path, Content>
    var projectType: Option<string>

    /** Both maps are ordered maps, keyed by paths below the filesystem root. */
    ghost predicate Valid()
      reads this
    {
      pages.Valid() && layouts.Valid() && [] !in pages.m && [] !in layouts.m
    }

    constructor ()
      ensures Valid() && pages.keys == [] && layouts.keys == [] && projectType == None
    {
      pages := EmptyMap();
      layouts := EmptyMap();
      projectType := None;
    }

    /** `findProjectRoot`: the first `fs.existsSync` call throws, so only the root itself comes back. */
    method FindProjectRoot(currentPath: Path) returns (r: Result<Path, Thrown>)
      ensures r.Err? <==> currentPath != []
      ensures r.Ok? ==> r.value == currentPath
    {
      var dir := currentPath;
      // The walk's loop test; its first `fs.existsSync` call throws.
      if dir != Dirname(dir) {
        return Err(ExistsSyncIsNotAFunction);
      }
      return Ok(currentPath);
    }

    /** `createFileNode`: throws for every path below the root; at the root it is the TypeScript node. */
    method CreateFileNode(fs: FS, filePath: Path, content: Content, kind: string) returns (r: Result<GraphNode, Thrown>)
      ensures r.Err? <==> filePath != []
      ensures r.Ok? ==> r.value == RA.FileNode(fs, filePath, content, kind, projectType)
    {
      var root := FindProjectRoot(filePath);
      if root.Err? {
        return Err(root.error);
      }
      r := Ok(GraphNode(Str(PathString(filePath)), Basename(filePath), kind, Some(content.text), RA.FileGroup(kind), RA.FileRadius(kind),
        projectType, Some(PathString(root.value))));
    }

    /**
     * `findComponentDependencies`: the project-root lookup for the first
     * local import throws unless the file sits at the root; otherwise the
     * same set the TypeScript version finds.
     */
    method FindComponentDependencies(fs: FS, content: Content, filePath: Path) returns (r: Result<seq<Path>, Thrown>)
      ensures r.Err? <==> ImportsThrow(content.stmts, filePath)
      ensures r.Ok? ==> r.value == RA.ComponentDependenciesOf(fs, content.stmts, filePath)
    {
      var specs := MatchAll(ImportFrom, content.stmts);
      var imports := ResolveImports(fs, specs, filePath);
      if imports.Err? {
        return Err(imports.error);
      }
      return Ok(Dedup(imports.value));
    }

    /** The loop of `findComponentDependencies`: every specifier resolved in order, the first followed one below the root throwing. */
    method ResolveImports(fs: FS, specs: seq<string>, filePath: Path) returns (r: Result<seq<Path>, Thrown>)
      ensures r.Err? <==> Dirname(filePath) != [] && exists s :: s in specs && RA.FollowedImport(s)
      ensures r.Ok? ==> r.value == RA.ResolvedAll(fs, specs, filePath)
    {
      var imports: seq<Path> := [];
      var i := 0;
      while i < |specs|
        invariant 0 <= i <= |specs|
        invariant imports + RA.ResolvedAll(fs, specs[i..], filePath) == RA.ResolvedAll(fs, specs, filePath)
        invariant forall j :: 0 <= j < i ==> !(Dirname(filePath) != [] && RA.FollowedImport(specs[j]))
      {
        var next := ResolveNext(fs, specs, filePath, i, imports);
        if next.Err? {
          assert specs[i] in specs;
          return Err(next.error);
        }
        imports := next.value;
        i := i + 1;
      }
      assert specs[i..] == [];
      forall s | s in specs
        ensures !(Dirname(filePath) != [] && RA.FollowedImport(s))
      {
        var j :| 0 <= j < |specs| && specs[j] == s;
      }
      return Ok(imports);
    }

    /** One pass of `findComponentDependencies`'s loop: the file the next specifier names, if any, is pushed. */
    method ResolveNext(fs: FS, specs: seq<string>, filePath: Path, i: nat, imports: seq<Path>) returns (r: Result<seq<Path>, Thrown>)
      requires i < |specs| && imports + RA.ResolvedAll(fs, specs[i..], filePath) == RA.ResolvedAll(fs, specs, filePath)
      ensures r.Err? <==> Dirname(filePath) != [] && RA.FollowedImport(specs[i])
      ensures r.Ok? ==> r.value + RA.ResolvedAll(fs, specs[i + 1..], filePath) == RA.ResolvedAll(fs, specs, filePath)
    {
      var found := ResolveSpec(fs, specs[i], filePath);
      if found.Err? {
        return Err(found.error);
      }
      ResolvedStep(fs, specs, filePath, i, imports, found.value);
      var next := imports;
      if found.value.Some? {
        next := next + [found.value.value];
      }
      assert next == imports + RA.Piece(found.value);
      return Ok(next);
    }

    /** One specifier of `findComponentDependencies`'s loop: a followed import throws unless the file sits at the root. */
    method ResolveSpec(fs: FS, importPath: string, filePath: Path) returns (r: Result<Option<Path>, Thrown>)
      ensures r.Err? <==> Dirname(filePath) != [] && RA.FollowedImport(importPath)
      ensures r.Ok? ==> r.value == RA.ResolveComponent(fs, importPath, filePath)
    {
      if StartsWith(importPath, ".") || StartsWith(importPath, "@/") {
        var basePath := Dirname(filePath);
        var projectRoot := FindProjectRoot(basePath);
        if projectRoot.Err? {
          return Err(projectRoot.error);
        }
        var resolvedPath := if StartsWith(importPath, "@/") then Resolve(Resolve(projectRoot.value, "src"), importPath[2..]) else Resolve(basePath, importPath);
        assert resolvedPath == NextjsAnalyzer.ImportBase(fs, importPath, filePath);
        var found := Probe(fs, ExtensionCandidates(resolvedPath, RA.ComponentExtensions));
        return Ok(found);
      }
      return Ok(None);
    }

    /**
     * `findLayout`: for a Next.js page in an app directory, walk up while
     * the path mentions `app` and record the first layout file found;
     * otherwise, or when the walk finds none, fall back to the import
     * patterns.
     */
    method FindLayout(fs: FS, content: Content, filePath: Path) returns (r: Option<Path>)
      requires Valid()
      modifies this
      ensures Valid() && pages == old(pages) && projectType == old(projectType)
      ensures r == LayoutOf(fs, projectType, content.stmts, filePath)
      ensures AppHit(fs, projectType, filePath).Some? ==> layouts == old(layouts).Put(r.value, fs[r.value].content)
      ensures AppHit(fs, projectType, filePath).None? ==> layouts == old(layouts)
    {
      var dirPath := Dirname(filePath);
      if projectType == Some("nextjs") && RA.InAppDir(dirPath) {
        var currentDir := dirPath;
        while RA.MentionsApp(currentDir)
          invariant AppLayout(fs, dirPath) == AppLayout(fs, currentDir)
          invariant layouts == old(layouts) && pages == old(pages) && projectType == old(projectType)
          decreases |currentDir|
        {
          var found := FindLayoutFile(fs, currentDir);
          if found.Some? {
            var layoutContent := fs[found.value].content;
            layouts := layouts.Put(found.value, layoutContent);
            return found;
          }
          var parentDir := Dirname(currentDir);
          if parentDir == currentDir {
            break;
          }
          currentDir := parentDir;
        }
      }
      r := FindImportedLayout(fs, content, dirPath);
    }

    /** One level of the walk: try layout.tsx, layout.jsx, layout.js, each `access` and `readFile` in one `try`. */
    method FindLayoutFile(fs: FS, currentDir: Path) returns (r: Option<Path>)
      ensures r == FirstFile(fs, RA.LayoutCandidates(currentDir))
    {
      var cands := RA.LayoutCandidates(currentDir);
      var j := 0;
      while j < 3
        invariant 0 <= j <= 3
        invariant forall k :: 0 <= k < j ==> !IsFile(fs, cands[k])
      {
        var layoutPath := currentDir + [RA.LayoutFiles[j]];
        if Exists(fs, layoutPath) {
          match ReadFile(fs, layoutPath)
          case Ok(_) =>
            return Some(layoutPath);
          case Err(_) =>
        }
        j := j + 1;
      }
      return None;
    }

    /** The fallback loop of `findLayout` over the three import patterns. */
    method FindImportedLayout(fs: FS, content: Content, dirPath: Path) returns (r: Option<Path>)
      ensures r == ImportedLayout(fs, content.stmts, dirPath, LayoutPatterns)
    {
      var i := 0;
      while i < |LayoutPatterns|
        invariant 0 <= i <= |LayoutPatterns|
        invariant ImportedLayout(fs, content.stmts, dirPath, LayoutPatterns) == ImportedLayout(fs, content.stmts, dirPath, LayoutPatterns[i..])
      {
        Sequences.DropHead(LayoutPatterns, i);
        var m := MatchFirst(LayoutPatterns[i], content.stmts);
        if m.Some? {
          var resolvedPath := Resolve(dirPath, m.value);
          var found := Probe(fs, LayoutImportCandidates(resolvedPath));
          if found.Some? {
            return found;
          }
        }
        i := i + 1;
      }
      return None;
    }

    /** The page file of one directory: read it, find its layout and its dependencies, and record it. */
    method ScanPageFile(fs: FS, currentPath: Path, entries: seq<Dirent>, routePath: string) returns (ok: bool)
      requires Valid() && ReadDir(fs, currentPath) == Ok(entries)
      modifies this
      ensures Valid() && projectType == old(projectType) && Grown(old(pages), pages) && Grown(old(layouts), layouts)
      ensures RA.FindPageFile(entries).None? ==> ok && pages == old(pages) && layouts == old(layouts)
      ensures forall k :: k in pages.m ==> (k in old(pages.m) && pages.m[k] == old(pages.m)[k]) || (RA.FindPageFile(entries).Some? && k == currentPath + [RA.FindPageFile(entries).value])
      ensures RA.FindPageFile(entries).Some? ==> var p := currentPath + [RA.FindPageFile(entries).value];
        (ok <==> IsFile(fs, p) && !ImportsThrow(fs[p].content.stmts, p)) &&
        (!ok ==> pages == old(pages)) &&
        (ok ==> pages == old(pages).Put(p, PageInfo(fs[p].content, LayoutOf(fs, projectType, fs[p].content.stmts, p),
          RA.ComponentDependenciesOf(fs, fs[p].content.stmts, p), RA.BuildRouteFromPath(routePath), RA.InAppDir(currentPath))))
    {
      ok := true;
      PutGrown(pages, [], PageInfo(Content("", [], None), None, [], "", false));
      PutGrown(layouts, [], Content("", [], None));
      var pageFile := RA.FindPageFile(entries);
      if pageFile.Some? {
        var fullPath := currentPath + [pageFile.value];
        match ReadFile(fs, fullPath)
        case Err(_) =>
          ok := false;
        case Ok(content) =>
          ok := RecordPage(fs, currentPath, fullPath, content, routePath);
      }
    }

    /** A page file read as `content`: its layout, its components, then the page recorded under its route. */
    method RecordPage(fs: FS, currentPath: Path, fullPath: Path, content: Content, routePath: string) returns (ok: bool)
      requires Valid() && fullPath != []
      modifies this
      ensures Valid() && projectType == old(projectType) && Grown(old(pages), pages) && Grown(old(layouts), layouts)
      ensures ok <==> !ImportsThrow(content.stmts, fullPath)
      ensures !ok ==> pages == old(pages)
      ensures ok ==> pages == old(pages).Put(fullPath, PageInfo(content, LayoutOf(fs, projectType, content.stmts, fullPath),
        RA.ComponentDependenciesOf(fs, content.stmts, fullPath), RA.BuildRouteFromPath(routePath), RA.InAppDir(currentPath)))
    {
      ghost var l0 := layouts;
      var layout := FindLayout(fs, content, fullPath);
      if AppHit(fs, projectType, fullPath).Some? {
        PutGrown(l0, layout.value, fs[layout.value].content);
      }
      var dependencies := FindComponentDependencies(fs, content, fullPath);
      if dependencies.Err? {
        return false;
      }
      var route := RA.BuildRouteFromPath(routePath);
      var info := PageInfo(content, layout, dependencies.value, route, RA.InAppDir(currentPath));
      PutGrown(pages, fullPath, info);
      pages := pages.Put(fullPath, info);
      ok := true;
    }

    /**
     * `scanPagesRecursively`: one `try` around the whole directory, so an
     * error in the listing, the page read or the page's imports ends this
     * directory's scan, its sub-directories included.
     */
    method ScanPagesRecursively(fs: FS, currentPath: Path, routePath: string)
      requires Valid()
      modifies this
      ensures Valid() && projectType == old(projectType) && Grown(old(pages), pages) && Grown(old(layouts), layouts)
      ensures forall k :: k in pages.m ==> (k in old(pages.m) && pages.m[k] == old(pages.m)[k]) || RA.Below(currentPath, k)
      ensures ScanAborts(fs, currentPath) ==> pages == old(pages)
      ensures var p := RA.PageFileIn(fs, currentPath);
        p.Some? && !ScanAborts(fs, currentPath) ==>
          p.value in pages.m && pages.m[p.value] == PageInfo(fs[p.value].content, LayoutOf(fs, projectType, fs[p.value].content.stmts, p.value),
            RA.ComponentDependenciesOf(fs, fs[p.value].content.stmts, p.value), RA.BuildRouteFromPath(routePath), RA.InAppDir(currentPath))
      ensures Scanned(fs, projectType, currentPath, routePath, pages.m)
      decreases Height(fs, currentPath), 2
    {
      match ReadDir(fs, currentPath)
      case Err(_) =>
        PutGrown(pages, [], PageInfo(Content("", [], None), None, [], "", false));
        PutGrown(layouts, [], Content("", [], None));
      case Ok(entries) =>
        ghost var pg0, ly0 := pages, layouts;
        var ok := ScanPageFile(fs, currentPath, entries, routePath);
        if !ok {
          return;
        }
        ghost var pg1, ly1 := pages, layouts;
        ScanSubdirectories(fs, currentPath, entries, routePath);
        GrownTrans(pg0, pg1, pages);
        GrownTrans(ly0, ly1, layouts);
        RA.ScanFrame(pg0, pg1, pages, currentPath, RA.FindPageFile(entries));
        var p := RA.PageFileIn(fs, currentPath);
        if p.Some? {
          assert p.value in pg1.m && |p.value| == |currentPath| + 1;
        }
    }

    /** The sub-directory loop of `scanPagesRecursively`. */
    method ScanSubdirectories(fs: FS, currentPath: Path, entries: seq<Dirent>, routePath: string)
      requires Valid() && ReadDir(fs, currentPath) == Ok(entries)
      modifies this
      ensures Valid() && projectType == old(projectType) && Grown(old(pages), pages) && Grown(old(layouts), layouts)
      ensures forall k :: k in pages.m ==> (k in old(pages.m) && pages.m[k] == old(pages.m)[k]) || (|k| >= |currentPath| + 2 && k[..|currentPath|] == currentPath)
      ensures forall i :: 0 <= i < |entries| ==> SubScanned(fs, projectType, currentPath, routePath, entries[i], pages.m)
      decreases Height(fs, currentPath), 1
    {
      ghost var pg0, ly0 := pages, layouts;
      PutGrown(pages, [], PageInfo(Content("", [], None), None, [], "", false));
      PutGrown(layouts, [], Content("", [], None));
      var i := 0;
      while i < |entries|
        invariant 0 <= i <= |entries|
        invariant Valid() && projectType == old(projectType) && Grown(pg0, pages) && Grown(ly0, layouts)
        invariant RA.DeeperChanges(pg0.m, pages.m, currentPath) && SubsScanned(fs, projectType, currentPath, routePath, entries, i, pages.m)
      {
        ScanSubdirectory(fs, currentPath, entries, routePath, i, pg0, ly0);
        i := i + 1;
      }
    }

    /** One entry of the sub-directory loop: a directory the scan descends into is scanned with its extended route path. */
    method ScanSubdirectory(fs: FS, currentPath: Path, entries: seq<Dirent>, routePath: string, i: nat,
                            ghost pg0: OMap<Path, PageInfo>, ghost ly0: OMap<Path, Content>)
      requires Valid() && ReadDir(fs, currentPath) == Ok(entries) && i < |entries|
      requires Grown(pg0, pages) && Grown(ly0, layouts)
      requires RA.DeeperChanges(pg0.m, pages.m, currentPath) && SubsScanned(fs, projectType, currentPath, routePath, entries, i, pages.m)
      modifies this
      ensures Valid() && projectType == old(projectType) && Grown(pg0, pages) && Grown(ly0, layouts)
      ensures RA.DeeperChanges(pg0.m, pages.m, currentPath) && SubsScanned(fs, projectType, currentPath, routePath, entries, i + 1, pages.m)
      decreases Height(fs, currentPath), 0
    {
      var entry := entries[i];
      if entry.isDir && !StartsWith(entry.name, "_") && !StartsWith(entry.name, ".") {
        var nextPath := currentPath + [entry.name];
        assert IsDirectory(fs, nextPath);
        assert |nextPath| <= Depth(fs);
        var nextRoutePath := RA.JoinRelative(routePath, RA.NormalizeRouteSegment(entry.name));
        ghost var pg1, ly1 := pages, layouts;
        ScanPagesRecursively(fs, nextPath, nextRoutePath);
        GrownTrans(pg0, pg1, pages);
        GrownTrans(ly0, ly1, layouts);
        SubdirectoryStep(fs, projectType, currentPath, entries, routePath, i, pg0, pg1, pages);
      }
    }

    /** `analyzePagesDirectory`: scan each page directory of the flavour, in order, from the empty route path. */
    method AnalyzePagesDirectory(fs: FS, projectRoot: Path)
      requires Valid()
      modifies this
      ensures Valid() && projectType == old(projectType) && Grown(old(pages), pages) && Grown(old(layouts), layouts)
      ensures forall i :: 0 <= i < |RA.PagesDirs(projectType)| ==> Scanned(fs, projectType, JoinSpec(projectRoot, RA.PagesDirs(projectType)[i]), "", pages.m)
    {
      var pagesDir := RA.PagesDirs(projectType);
      ghost var pg0, ly0 := pages, layouts;
      PutGrown(pages, [], PageInfo(Content("", [], None), None, [], "", false));
      PutGrown(layouts, [], Content("", [], None));
      var i := 0;
      while i < |pagesDir|
        invariant 0 <= i <= |pagesDir|
        invariant Valid() && projectType == old(projectType) && Grown(pg0, pages) && Grown(ly0, layouts)
        invariant forall j :: 0 <= j < i ==> Scanned(fs, projectType, JoinSpec(projectRoot, pagesDir[j]), "", pages.m)
      {
        var fullPath := JoinSpec(projectRoot, pagesDir[i]);
        ghost var pg1, ly1 := pages, layouts;
        ScanPagesRecursively(fs, fullPath, "");
        GrownTrans(pg0, pg1, pages);
        GrownTrans(ly0, ly1, layouts);
        PagesDirStep(fs, projectType, projectRoot, i, pg1, pages);
        i := i + 1;
      }
    }

    /**
     * `processFileDependencies`: every dependency not yet processed that can
     * be read gets a component node and an `imports` link; its own imports
     * are followed only when resolving them does not throw, the error being
     * caught after the node and the link are in.
     */
    method ProcessFileDependencies(fs: FS, ctx: Context, deps: seq<Path>, sourcePath: Path, ghost app: GraphNode, ghost layoutIds: set<NodeId>)
      requires RA.Inv(ctx, app, layoutIds) && Str(PathString(sourcePath)) in Ids(ctx.nodes)
      modifies ctx
      ensures RA.Inv(ctx, app, layoutIds) && Grows(ctx, old(ctx.nodes), old(ctx.links), old(ctx.processed))
      ensures forall d :: d in deps && IsFile(fs, d) ==> PathString(d) in ctx.processed
      decreases PathStrings(fs) - ctx.processed, 1
    {
      ghost var n0, l0, p0 := ctx.nodes, ctx.links, ctx.processed;
      var i := 0;
      while i < |deps|
        invariant 0 <= i <= |deps|
        invariant RA.Inv(ctx, app, layoutIds) && Grows(ctx, n0, l0, p0) && Str(PathString(sourcePath)) in Ids(ctx.nodes)
        invariant PathStrings(fs) - ctx.processed <= PathStrings(fs) - p0
        invariant forall j :: 0 <= j < i && IsFile(fs, deps[j]) ==> PathString(deps[j]) in ctx.processed
      {
        ghost var n1, l1, p1 := ctx.nodes, ctx.links, ctx.processed;
        ProcessDependency(fs, ctx, deps[i], sourcePath, app, layoutIds);
        GrowsTrans(ctx, n0, l0, p0, n1, l1, p1);
        i := i + 1;
      }
    }

    /** One dependency of `processFileDependencies`'s loop, inside its `try`. */
    method ProcessDependency(fs: FS, ctx: Context, dep: Path, sourcePath: Path, ghost app: GraphNode, ghost layoutIds: set<NodeId>)
      requires RA.Inv(ctx, app, layoutIds) && Str(PathString(sourcePath)) in Ids(ctx.nodes)
      modifies ctx
      ensures RA.Inv(ctx, app, layoutIds) && Grows(ctx, old(ctx.nodes), old(ctx.links), old(ctx.processed))
      ensures Str(PathString(sourcePath)) in Ids(ctx.nodes)
      ensures IsFile(fs, dep) ==> PathString(dep) in ctx.processed
      ensures PathString(dep) in old(ctx.processed) || !IsFile(fs, dep) ==>
        ctx.nodes == old(ctx.nodes) && ctx.links == old(ctx.links) && ctx.processed == old(ctx.processed)
      ensures PathString(dep) !in old(ctx.processed) && IsFile(fs, dep) ==>
        |ctx.nodes| > |old(ctx.nodes)| && ctx.nodes[|old(ctx.nodes)|] == RA.DependencyNode(dep, fs[dep].content, projectType) &&
        |ctx.links| > |old(ctx.links)| && ctx.links[|old(ctx.links)|] == GraphLink(Str(PathString(sourcePath)), Str(PathString(dep)), 1, Some("imports"))
      ensures PathString(dep) !in old(ctx.processed) && IsFile(fs, dep) && ImportsThrow(fs[dep].content.stmts, dep) ==>
        ctx.nodes == old(ctx.nodes) + [RA.DependencyNode(dep, fs[dep].content, projectType)] &&
        ctx.links == old(ctx.links) + [GraphLink(Str(PathString(sourcePath)), Str(PathString(dep)), 1, Some("imports"))]
      decreases PathStrings(fs) - ctx.processed, 0
    {
      var depId := PathString(dep);
      if depId !in ctx.processed {
        match ReadFile(fs, dep)
        case Err(_) =>
        case Ok(content) =>
          ghost var n0, l0, p0 := ctx.nodes, ctx.links, ctx.processed;
          var depNode := GraphNode(Str(depId), Basename(dep), "component", Some(content.text), 3, 10.0, projectType, None);
          var link := GraphLink(Str(PathString(sourcePath)), Str(depId), 1, Some("imports"));
          RA.Rooted(dep);
          RA.AddStep(ctx.nodes, ctx.links, ctx.processed, app, layoutIds, depId, depNode, link);
          ctx.MarkProcessed(depId);
          ctx.AddNode(depNode);
          ctx.AddLink(link);
          assert depId in PathStrings(fs);
          KeptId(ctx, n0, Str(PathString(sourcePath)));
          var nestedDeps := FindComponentDependencies(fs, content, dep);
          if nestedDeps.Ok? {
            ghost var n1, l1, p1 := ctx.nodes, ctx.links, ctx.processed;
            ProcessFileDependencies(fs, ctx, nestedDeps.value, dep, app, layoutIds);
            assert n1[..|n0|] == n0 && l1[..|l0|] == l0;
            GrowsTrans(ctx, n0, l0, p0, n1, l1, p1);
            assert ctx.nodes[|n0|] == ctx.nodes[..|n1|][|n0|];
            assert ctx.links[|l0|] == ctx.links[..|l1|][|l0|];
            KeptId(ctx, n0, Str(PathString(sourcePath)));
          }
      }
    }

    /**
     * `analyzeReactProject`: detect and scan as the TypeScript version does;
     * the emission then fails at the first recorded layout or page, whose
     * `createFileNode` throws, so a detected project yields only its
     * application node, and only when nothing was recorded.
     */
    method AnalyzeReactProject(fs: FS, projectRoot: Path) returns (r: Result<GraphData, Thrown>)
      requires Valid()
      modifies this
      ensures Valid() && projectType == RA.DetectedType(fs, projectRoot)
      ensures Grown(old(pages), pages) && Grown(old(layouts), layouts)
      ensures projectType.None? ==> r == Ok(GraphData([], [])) && pages == old(pages) && layouts == old(layouts)
      ensures projectType.Some? ==> (r.Err? <==> layouts.keys != [] || pages.keys != [])
      ensures projectType.Some? && r.Ok? ==> r.value == GraphData([RA.AppNode(projectType.value, projectRoot)], [])
      ensures projectType.Some? ==>
        forall i :: 0 <= i < |RA.PagesDirs(projectType)| ==> Scanned(fs, projectType, JoinSpec(projectRoot, RA.PagesDirs(projectType)[i]), "", pages.m)
      ensures Answered(fs, projectRoot, r.ToOption(), layouts.keys != [] || pages.keys != [])
    {
      projectType := RA.DetectedType(fs, projectRoot);
      if projectType.None? {
        PutGrown(pages, [], PageInfo(Content("", [], None), None, [], "", false));
        PutGrown(layouts, [], Content("", [], None));
        return Ok(GraphData([], []));
      }
      AnalyzePagesDirectory(fs, projectRoot);
      var appNode := RA.AppNode(projectType.value, projectRoot);
      // The forEach callbacks: the first one already throws, since every recorded path lies below the root.
      if |layouts.keys| > 0 {
        var layoutPath := layouts.keys[0];
        assert layoutPath in layouts.m;
        var layoutNode := CreateFileNode(fs, layoutPath, layouts.m[layoutPath], "layout");
        return Err(layoutNode.error);
      }
      if |pages.keys| > 0 {
        var pagePath := pages.keys[0];
        assert pagePath in pages.m;
        var pageNode := CreateFileNode(fs, pagePath, pages.m[pagePath].content, "page");
        return Err(pageNode.error);
      }
      return Ok(GraphData([appNode], []));
    }
  }
}
