/**
 * The React analyzer (`reactAnalyzer.ts`): the project flavour read from
 * package.json, the pages found under the flavour's page directories with
 * the layout each uses, and a graph of the application node, the layouts,
 * the pages and the components they import, transitively.
 */
module ReactAnalyzer {
  import opened Wrappers
  import opened Strings
  import opened Paths
  import opened SourceText
  import opened FileSystem
  import opened Graph
  import opened Extractors
  import opened OrderedMaps
  import NextjsAnalyzer

  // ------------------------------------------------------ project flavour

  /** The `dependencies` of root/package.json; `None` when it cannot be read or parsed. */
  function ManifestDependencies(fs: FS, root: Path): Option<set<string>> {
    match ReadFile(fs, root + ["package.json"])
    case Err(_) => None
    case Ok(c) => match c.manifest
      case None => None
      case Some(m) => Some(m.dependencies)
  }

  /** `detectReactProjectType`: a decision list over the dependencies and three marker paths. */
  function DetectedType(fs: FS, root: Path): (r: Option<string>)
    ensures r.Some? ==> ManifestDependencies(fs, root).Some? && (r.value == "react-native" || r.value == "nextjs" || r.value == "react")
  {
    match ManifestDependencies(fs, root)
    case None => None
    case Some(deps) =>
      if "react-native" in deps && Exists(fs, root + ["app.json"]) then Some("react-native")
      else if "next" in deps && (Exists(fs, root + ["next.config.js"]) || Exists(fs, root + ["src", "app"]) || Exists(fs, root + ["app"])) then Some("nextjs")
      else if "react" in deps then Some("react")
      else None
  }

  predicate NextMarkers(fs: FS, root: Path) {
    Exists(fs, root + ["next.config.js"]) || Exists(fs, root + ["src", "app"]) || Exists(fs, root + ["app"])
  }

  /**
   * The order of the decision list: React Native wins over Next.js, Next.js
   * over plain React, and an unreadable manifest or one listing none of the
   * three gives no flavour.
   */
  lemma DetectionOrder(fs: FS, root: Path)
    ensures var d := ManifestDependencies(fs, root);
      (DetectedType(fs, root) == Some("react-native") <==> d.Some? && "react-native" in d.value && Exists(fs, root + ["app.json"])) &&
      (DetectedType(fs, root) == Some("nextjs") <==> (d.Some? && !("react-native" in d.value && Exists(fs, root + ["app.json"])) &&
        "next" in d.value && NextMarkers(fs, root))) &&
      (DetectedType(fs, root) == Some("react") <==> (d.Some? && !("react-native" in d.value && Exists(fs, root + ["app.json"])) &&
        !("next" in d.value && NextMarkers(fs, root)) && "react" in d.value)) &&
      (DetectedType(fs, root).None? <==> (d.None? || (!("react-native" in d.value && Exists(fs, root + ["app.json"])) &&
        !("next" in d.value && NextMarkers(fs, root)) && "react" !in d.value)))
  {
    assert "react-native" != "nextjs" && "nextjs" != "react" && "react-native" != "react" by {
      assert "react-native"[5] == '-' && "nextjs"[0] == 'n' && |"react"| == 5;
    }
  }

  function ProjectTypeName(projectType: Option<string>): string {
    if projectType == Some("nextjs") then "Next.js Application"
    else if projectType == Some("react-native") then "React Native Application"
    else "React Application"
  }

  /** The `pagesDir` entry of `getProjectDirs`, for the flavour. */
  function PagesDirs(projectType: Option<string>): seq<string> {
    if projectType == Some("nextjs") then ["src/app", "app", "pages", "src/pages"]
    else if projectType == Some("react-native") then ["screens"]
    else ["src/pages"]
  }

  // -------------------------------------------------------- route strings

  /**
   * Where `/\(.*?\)/` matches: from the first `(` to the first `)` after it.
   * When that `(` has no `)` after it, no `(` has.
   */
  function GroupSpan(s: string): (r: Option<(nat, nat)>)
    ensures r.Some? ==> (r.value.0 < r.value.1 < |s| && s[r.value.0] == '(' && s[r.value.1] == ')' &&
      '(' !in s[..r.value.0] && ')' !in s[r.value.0 + 1..r.value.1])
    ensures r.None? ==> forall i, j :: 0 <= i < j < |s| && s[i] == '(' ==> s[j] != ')'
  {
    if '(' !in s then None
    else
      var i := FirstIndex(s, '(');
      if ')' !in s[i + 1..] then
        assert forall j :: i < j < |s| ==> s[j] == s[i + 1..][j - i - 1];
        assert forall k :: 0 <= k < i ==> s[k] == s[..i][k];
        None
      else
        var j := i + 1 + FirstIndex(s[i + 1..], ')');
        assert s[i + 1..j] == s[i + 1..][..j - i - 1];
        Some((i, j))
  }

  /** `s.replace(/\(.*?\)/, '')`: the first route group is removed. */
  function RemoveFirstGroup(s: string): (r: string)
    ensures GroupSpan(s).None? ==> r == s
    ensures GroupSpan(s).Some? ==> r == s[..GroupSpan(s).value.0] + s[GroupSpan(s).value.1 + 1..]
  {
    match GroupSpan(s)
    case None => s
    case Some((i, j)) => s[..i] + s[j + 1..]
  }

  /** The two bracket forms: `[...name]` (catch-all) and `[name]` (dynamic). */
  datatype Bracket = CatchAll | Dynamic

  function Opening(b: Bracket): string {
    match b
    case CatchAll => "[..."
    case Dynamic => "["
  }

  /** `/\[\.{3}(\w+)\]/` or `/\[(\w+)\]/` matches at position `i`: the opening, a run of `\w`, then `]`. */
  predicate BracketAt(b: Bracket, s: string, i: nat) {
    var n := |Opening(b)|;
    i + n <= |s| && s[i..i + n] == Opening(b) &&
    var e := WordRunEnd(s, i + n); e > i + n && e < |s| && s[e] == ']'
  }

  /** The leftmost position at or after `k` where the bracket form matches. */
  function FirstBracket(b: Bracket, s: string, k: nat): (r: Option<nat>)
    requires k <= |s|
    ensures r.Some? ==> k <= r.value < |s| && BracketAt(b, s, r.value) && forall i :: k <= i < r.value ==> !BracketAt(b, s, i)
    ensures r.None? ==> forall i :: k <= i <= |s| ==> !BracketAt(b, s, i)
    decreases |s| - k
  {
    if k == |s| then None
    else if BracketAt(b, s, k) then Some(k)
    else FirstBracket(b, s, k + 1)
  }

  /** `s.replace(/\[\.{3}(\w+)\]/, '*')` or `s.replace(/\[(\w+)\]/, ':$1')`: the first occurrence only. */
  function ReplaceFirst(b: Bracket, s: string): (r: string)
    ensures FirstBracket(b, s, 0).None? ==> r == s
  {
    match FirstBracket(b, s, 0)
    case None => s
    case Some(i) =>
      var e := WordRunEnd(s, i + |Opening(b)|);
      s[..i] + (if b == CatchAll then "*" else ":" + s[i + 1..e]) + s[e + 1..]
  }

  /** With the first `[` at `i` opening a dynamic segment `[\w+]` that closes at `e`, that segment becomes `:name`. */
  lemma DynamicRewrite(s: string, i: nat, e: nat)
    requires i + 1 < e < |s| && s[i] == '[' && s[e] == ']' && forall k :: i < k < e ==> IsWordChar(s[k])
    requires forall k :: 0 <= k < i ==> s[k] != '['
    ensures ReplaceFirst(Dynamic, s) == s[..i] + ":" + s[i + 1..e] + s[e + 1..]
  {
    assert WordRunEnd(s, i + 1) == e;
    assert s[i..i + 1] == "[";
    assert BracketAt(Dynamic, s, i);
    forall k | 0 <= k < i
      ensures !BracketAt(Dynamic, s, k)
    {
      assert s[k..k + 1][0] == s[k];
    }
    assert FirstBracket(Dynamic, s, 0) == Some(i);
  }

  /** A dynamic segment after a prefix with no `[` is the one rewritten. */
  lemma DynamicAfter(prefix: string, name: string, rest: string)
    requires '[' !in prefix && IsWord(name)
    ensures ReplaceFirst(Dynamic, prefix + "[" + name + "]" + rest) == prefix + ":" + name + rest
  {
    var s := prefix + "[" + name + "]" + rest;
    var i, e := |prefix|, |prefix| + |name| + 1;
    assert forall k :: 0 <= k < i ==> s[k] == prefix[k];
    assert forall k :: i < k < e ==> s[k] == name[k - i - 1];
    DynamicRewrite(s, i, e);
    assert s[..i] == prefix && s[i + 1..e] == name && s[e + 1..] == rest;
  }

  /** The catch-all form needs `[.`, so it does not match where no `[` is followed by `.`. */
  lemma NoCatchAll(s: string)
    requires forall i :: 0 <= i < |s| - 1 && s[i] == '[' ==> s[i + 1] != '.'
    ensures ReplaceFirst(CatchAll, s) == s
  {
    forall i | 0 <= i <= |s|
      ensures !BracketAt(CatchAll, s, i)
    {
      if i + 4 <= |s| {
        assert s[i..i + 4][0] == s[i] && s[i..i + 4][1] == s[i + 1];
      }
    }
  }

  /** `normalizeRouteSegment`: the first group removed, then the first catch-all, then the first dynamic segment rewritten. */
  function NormalizeRouteSegment(segment: string): string {
    ReplaceFirst(Dynamic, ReplaceFirst(CatchAll, RemoveFirstGroup(segment)))
  }

  /** A directory name the rewriting leaves alone. */
  predicate PlainName(seg: string) {
    CleanSegment(seg) && '(' !in seg && '[' !in seg
  }

  lemma NormalizePlain(seg: string)
    requires PlainName(seg)
    ensures NormalizeRouteSegment(seg) == seg
  {
    assert GroupSpan(seg).None?;
    forall b: Bracket, i | 0 <= i <= |seg|
      ensures !BracketAt(b, seg, i)
    {
      var n := |Opening(b)|;
      assert Opening(b)[0] == '[';
      if i + n <= |seg| {
        assert seg[i..i + n][0] == seg[i] != '[';
      }
    }
  }

  /** No rewriting step introduces a `/`: a rewritten directory name stays one path segment. */
  lemma NormalizeNoSlash(seg: string)
    requires '/' !in seg
    ensures '/' !in NormalizeRouteSegment(seg)
  {
    var g := RemoveFirstGroup(seg);
    NoSlashPieces(seg);
    assert '/' !in g;
    ReplaceNoSlash(CatchAll, g);
    ReplaceNoSlash(Dynamic, ReplaceFirst(CatchAll, g));
  }

  lemma NoSlashPieces(s: string)
    requires '/' !in s
    ensures forall i, j :: 0 <= i <= j <= |s| ==> '/' !in s[i..j]
    ensures forall i :: 0 <= i <= |s| ==> '/' !in s[..i] && '/' !in s[i..]
  {
    forall i, j | 0 <= i <= j <= |s|
      ensures '/' !in s[i..j]
    {
      forall k | 0 <= k < j - i
        ensures s[i..j][k] != '/'
      {
        assert s[i..j][k] == s[i + k];
      }
    }
    forall i | 0 <= i <= |s|
      ensures '/' !in s[..i] && '/' !in s[i..]
    {
      assert s[..i] == s[0..i] && s[i..] == s[i..|s|];
    }
  }

  lemma ReplaceNoSlash(b: Bracket, s: string)
    requires '/' !in s
    ensures '/' !in ReplaceFirst(b, s)
  {
    NoSlashPieces(s);
  }

  /** A route group's name rewrites to the empty string. */
  lemma GroupRemoved()
    ensures NormalizeRouteSegment("(marketing)") == ""
  {
    var m := "(marketing)";
    assert FirstIndex(m, '(') == 0;
    assert m[1..][9] == ')';
    assert FirstIndex(m[1..], ')') == 9;
    assert RemoveFirstGroup(m) == "";
    assert FirstBracket(CatchAll, "", 0).None?;
    assert FirstBracket(Dynamic, "", 0).None?;
  }

  /** `[name]` becomes `:name`, as `[slug]` becomes `:slug`. */
  lemma DynamicRewritten(name: string)
    requires IsWord(name)
    ensures NormalizeRouteSegment("[" + name + "]") == ":" + name
  {
    DynamicFirst(name, "");
    assert "[" + name + "]" + "" == "[" + name + "]" && ":" + name + "" == ":" + name;
  }

  /** A name that starts with a dynamic segment, followed by no group and no catch-all: only that segment is rewritten. */
  lemma DynamicFirst(name: string, rest: string)
    requires IsWord(name) && '(' !in rest && (|rest| > 0 && rest[0] == '[' ==> |rest| > 1 && rest[1] != '.')
    requires forall i :: 0 <= i < |rest| - 1 && rest[i] == '[' ==> rest[i + 1] != '.'
    ensures NormalizeRouteSegment("[" + name + "]" + rest) == ":" + name + rest
  {
    BracketedGroupFree(name, rest);
    BracketedNoCatchAll(name, rest);
    BracketedDynamic(name, rest);
  }

  lemma BracketedGroupFree(name: string, rest: string)
    requires IsWord(name) && '(' !in rest && (|rest| > 0 && rest[0] == '[' ==> |rest| > 1 && rest[1] != '.')
    requires forall i :: 0 <= i < |rest| - 1 && rest[i] == '[' ==> rest[i + 1] != '.'
    ensures RemoveFirstGroup("[" + name + "]" + rest) == "[" + name + "]" + rest
  {
    BracketedWord(name, rest);
  }

  lemma BracketedNoCatchAll(name: string, rest: string)
    requires IsWord(name) && '(' !in rest && (|rest| > 0 && rest[0] == '[' ==> |rest| > 1 && rest[1] != '.')
    requires forall i :: 0 <= i < |rest| - 1 && rest[i] == '[' ==> rest[i + 1] != '.'
    ensures ReplaceFirst(CatchAll, "[" + name + "]" + rest) == "[" + name + "]" + rest
  {
    BracketedWord(name, rest);
    NoCatchAll("[" + name + "]" + rest);
  }

  lemma BracketedDynamic(name: string, rest: string)
    requires IsWord(name)
    ensures ReplaceFirst(Dynamic, "[" + name + "]" + rest) == ":" + name + rest
  {
    DynamicAfter("", name, rest);
    assert "" + "[" + name + "]" + rest == "[" + name + "]" + rest;
    assert "" + ":" + name + rest == ":" + name + rest;
  }

  /** `[name]` followed by a string with no `(` and no `[.`: the facts the rewriting needs. */
  lemma BracketedWord(name: string, rest: string)
    requires IsWord(name) && '(' !in rest && (|rest| > 0 && rest[0] == '[' ==> |rest| > 1 && rest[1] != '.')
    requires forall i :: 0 <= i < |rest| - 1 && rest[i] == '[' ==> rest[i + 1] != '.'
    ensures var d, e := "[" + name + "]" + rest, |name| + 1;
      '(' !in d && GroupSpan(d).None? &&
      (forall i :: 0 <= i < |d| - 1 && d[i] == '[' ==> d[i + 1] != '.') &&
      e < |d| && d[0] == '[' && d[e] == ']' && (forall k :: 0 < k < e ==> IsWordChar(d[k])) &&
      d[1..e] == name && d[e + 1..] == rest
  {
    var d, e := "[" + name + "]" + rest, |name| + 1;
    assert forall k :: 0 < k < e ==> d[k] == name[k - 1];
    assert forall k :: e < k < |d| ==> d[k] == rest[k - e - 1];
    assert d[1..e] == name && d[e + 1..] == rest;
  }

  /** `[...all]` becomes `*`. */
  lemma CatchAllRewritten()
    ensures NormalizeRouteSegment("[...all]") == "*"
  {
    var c := "[...all]";
    assert GroupSpan(c).None?;
    assert WordRunEnd(c, 4) == 7 by {
      assert IsWordChar(c[4]) && IsWordChar(c[5]) && IsWordChar(c[6]) && !IsWordChar(c[7]);
    }
    assert BracketAt(CatchAll, c, 0);
    assert ReplaceFirst(CatchAll, c) == "*";
    assert FirstBracket(Dynamic, "*", 0).None? by {
      assert !BracketAt(Dynamic, "*", 0) && !BracketAt(Dynamic, "*", 1);
    }
  }

  /** Only the first dynamic segment of a name is rewritten: `[a][b]` becomes `:a[b]`. */
  lemma FirstDynamicOnly(a: string, b: string)
    requires IsWord(a) && IsWord(b)
    ensures NormalizeRouteSegment("[" + a + "][" + b + "]") == ":" + a + "[" + b + "]"
  {
    var rest := "[" + b + "]";
    assert '(' !in rest && (forall i :: 0 <= i < |rest| - 1 && rest[i] == '[' ==> rest[i + 1] != '.') by {
      BracketedWord(b, "");
      assert rest + "" == rest;
    }
    DynamicFirst(a, rest);
    TwoBrackets(a, b);
  }

  lemma TwoBrackets(a: string, b: string)
    ensures "[" + a + "][" + b + "]" == "[" + a + "]" + ("[" + b + "]")
    ensures ":" + a + ("[" + b + "]") == ":" + a + "[" + b + "]"
  {
  }

  /**
   * Node's `path.normalize` on the segments of a relative path: empty and
   * `.` segments go, `..` removes the segment before it, or is kept when
   * there is none to remove.
   */
  function NormalizeRelative(acc: seq<string>, parts: seq<string>): seq<string>
    decreases |parts|
  {
    if parts == [] then acc
    else if parts[0] == "" || parts[0] == "." then NormalizeRelative(acc, parts[1..])
    else if parts[0] == ".." then
      if |acc| > 0 && acc[|acc| - 1] != ".." then NormalizeRelative(acc[..|acc| - 1], parts[1..])
      else NormalizeRelative(acc + [".."], parts[1..])
    else NormalizeRelative(acc + [parts[0]], parts[1..])
  }

  /** `path.join(a, b)` on relative paths: the non-empty arguments joined by `/`, normalised, `.` when nothing is left. */
  function JoinRelative(a: string, b: string): string {
    var joined := if a == "" then b else if b == "" then a else a + "/" + b;
    var segs := NormalizeRelative([], Split(joined, '/'));
    if segs == [] then "." else Join(segs, "/")
  }

  lemma {:induction false} NormalizeCleanSegments(acc: seq<string>, parts: seq<string>)
    requires forall i :: 0 <= i < |parts| ==> CleanSegment(parts[i])
    ensures NormalizeRelative(acc, parts) == acc + parts
    decreases |parts|
  {
    if parts != [] {
      NormalizeCleanSegments(acc + [parts[0]], parts[1..]);
      assert acc + [parts[0]] + parts[1..] == acc + parts;
    }
  }

  /** Joining clean names onto a clean relative path only appends them. */
  lemma JoinRelativeClean(segs: seq<string>, name: string)
    requires forall i :: 0 <= i < |segs| ==> CleanSegment(segs[i])
    requires CleanSegment(name)
    ensures JoinRelative(Join(segs, "/"), name) == Join(segs + [name], "/")
  {
    var all := segs + [name];
    assert forall i :: 0 <= i < |all| ==> CleanSegment(all[i]) && '/' !in all[i];
    if segs == [] {
      assert Join(segs, "/") == "";
      assert all == [name];
      assert Join(all, "/") == name;
    } else {
      JoinSnoc(segs, name);
      JoinEnds(segs, '/');
      assert Join(segs, "/") != "";
    }
    SplitJoin(all, '/');
    NormalizeCleanSegments([], all);
    assert [] + all == all;
  }

  lemma {:induction false} JoinSnoc(segs: seq<string>, name: string)
    requires |segs| >= 1
    ensures Join(segs + [name], "/") == Join(segs, "/") + "/" + name
    decreases |segs|
  {
    if |segs| == 1 {
      assert (segs + [name])[1..] == [name];
    } else {
      assert (segs + [name])[1..] == segs[1..] + [name];
      JoinSnoc(segs[1..], name);
    }
  }

  function NonEmptyParts(parts: seq<string>): (r: seq<string>)
    ensures forall i :: 0 <= i < |r| ==> r[i] != ""
    decreases |parts|
  {
    if parts == [] then []
    else (if parts[0] == "" then [] else [parts[0]]) + NonEmptyParts(parts[1..])
  }

  function NormalizeParts(parts: seq<string>): (r: seq<string>)
    ensures |r| == |parts|
    ensures forall i :: 0 <= i < |parts| ==> r[i] == NormalizeRouteSegment(parts[i])
  {
    seq(|parts|, i requires 0 <= i < |parts| => NormalizeRouteSegment(parts[i]))
  }

  /**
   * `buildRouteFromPath`: the non-empty segments of the route path
   * rewritten and joined by `/`, with a `/` in front unless one is there.
   */
  function BuildRouteFromPath(routePath: string): (r: string)
    ensures StartsWith(r, "/")
  {
    var web := Join(NormalizeParts(NonEmptyParts(Split(routePath, '/'))), "/");
    if StartsWith(web, "/") then web else "/" + web
  }

  /** The route of the scan's starting directory, whose route path is empty, is `/`. */
  lemma EmptyRoute()
    ensures BuildRouteFromPath("") == "/"
  {
    assert Split("", '/') == [""];
    assert NonEmptyParts([""]) == [];
  }

  lemma {:induction false} NonEmptyClean(parts: seq<string>)
    requires forall i :: 0 <= i < |parts| ==> CleanSegment(parts[i])
    ensures NonEmptyParts(parts) == parts
    decreases |parts|
  {
    if parts != [] {
      NonEmptyClean(parts[1..]);
    }
  }

  /** A route path of plain directory names is its own route, behind a `/`. */
  lemma PlainRoute(segs: seq<string>)
    requires |segs| >= 1 && forall i :: 0 <= i < |segs| ==> PlainName(segs[i])
    ensures BuildRouteFromPath(Join(segs, "/")) == "/" + Join(segs, "/")
  {
    var j := Join(segs, "/");
    SplitJoin(segs, '/');
    assert Split(j, '/') == segs;
    NonEmptyClean(segs);
    NormalizePlainParts(segs);
    JoinEnds(segs, '/');
    assert !StartsWith(j, "/");
  }

  lemma NormalizePlainParts(segs: seq<string>)
    requires forall i :: 0 <= i < |segs| ==> PlainName(segs[i])
    ensures NormalizeParts(segs) == segs
  {
    forall i | 0 <= i < |segs|
      ensures NormalizeRouteSegment(segs[i]) == segs[i]
    {
      NormalizePlain(segs[i]);
    }
  }

  /**
   * A page directly inside a top-level route group is routed `/.`: the
   * group's name rewrites to the empty string, `path.join('', '')` is `.`,
   * and `.` is a non-empty segment.
   */
  lemma TopLevelGroupRoute()
    ensures BuildRouteFromPath(JoinRelative("", NormalizeRouteSegment("(marketing)"))) == "/."
  {
    GroupRemoved();
    JoinNothing();
    DotRoute();
  }

  lemma JoinNothing()
    ensures JoinRelative("", "") == "."
  {
    assert Split("", '/') == [""];
    assert NormalizeRelative([], [""]) == [];
  }

  lemma DotRoute()
    ensures BuildRouteFromPath(".") == "/."
  {
    assert Split(".", '/') == ["."];
    assert NonEmptyParts(["."]) == ["."];
    NormalizePlainDot();
    assert NormalizeParts(["."]) == ["."];
    assert Join(["."], "/") == ".";
    assert !StartsWith(".", "/");
    assert "/" + "." == "/.";
  }

  lemma NormalizePlainDot()
    ensures NormalizeRouteSegment(".") == "."
  {
    assert GroupSpan(".").None?;
    assert FirstBracket(CatchAll, ".", 0).None? by {
      assert !BracketAt(CatchAll, ".", 0) && !BracketAt(CatchAll, ".", 1);
    }
    assert FirstBracket(Dynamic, ".", 0).None? by {
      assert !BracketAt(Dynamic, ".", 0) && !BracketAt(Dynamic, ".", 1);
    }
  }

  // -------------------------------------------------------------- layouts

  const LayoutFiles: seq<string> := ["layout.tsx", "layout.jsx", "layout.js"]

  function LayoutCandidates(dir: Path): (r: seq<Path>)
    ensures |r| == 3 && forall i :: 0 <= i < 3 ==> r[i] == dir + [LayoutFiles[i]]
  {
    [dir + ["layout.tsx"], dir + ["layout.jsx"], dir + ["layout.js"]]
  }

  /** The page directory test of `scanPagesRecursively` and `findLayout`: the path has an `app` segment below the top. */
  predicate InAppDir(dir: Path) {
    Contains(PathString(dir), "/app/") || Contains(PathString(dir), "\\app\\")
  }

  /** The loop condition of `findLayout`: `app` anywhere in the path. */
  predicate MentionsApp(dir: Path) {
    Contains(PathString(dir), "app")
  }

  predicate NoLayoutIn(fs: FS, dir: Path) {
    FirstExisting(fs, LayoutCandidates(dir)).None?
  }

  /** Every directory from `dir[..j]` down to `dir` mentions `app`: the upward walk from `dir` reaches `dir[..j]`. */
  predicate AppChain(dir: Path, j: nat) {
    forall k :: j <= k <= |dir| ==> MentionsApp(dir[..k])
  }

  /**
   * `r` is the layout the upward walk from `dir` finds: the first layout
   * file of the nearest directory that has one, reached through directories
   * that all mention `app`; none when no directory on that walk has one.
   */
  ghost predicate NearestLayout(fs: FS, dir: Path, r: Option<Path>) {
    (r.Some? ==> (1 <= |r.value| <= |dir| + 1 && Dirname(r.value) == dir[..|r.value| - 1] &&
      Basename(r.value) in LayoutFiles && FirstExisting(fs, LayoutCandidates(Dirname(r.value))) == r &&
      AppChain(dir, |r.value| - 1) && forall k :: |r.value| - 1 < k <= |dir| ==> NoLayoutIn(fs, dir[..k]))) &&
    (r.None? ==> forall k :: 0 <= k <= |dir| && AppChain(dir, k) ==> NoLayoutIn(fs, dir[..k]))
  }

  /** `findLayout`'s walk: try the layout files of `dir`, then go up while the path mentions `app`. */
  function LayoutSearch(fs: FS, dir: Path): (r: Option<Path>)
    ensures NearestLayout(fs, dir, r)
    ensures r.Some? ==> Exists(fs, r.value)
    decreases |dir|
  {
    if !MentionsApp(dir) then
      NotMentioned(fs, dir);
      None
    else match FirstExisting(fs, LayoutCandidates(dir))
      case Some(p) =>
        Found(fs, dir);
        Some(p)
      case None =>
        if Dirname(dir) == dir then
          NotMentioned(fs, dir);
          None
        else
          var r := LayoutSearch(fs, Dirname(dir));
          WalkUp(fs, dir, r);
          r
  }

  lemma NotMentioned(fs: FS, dir: Path)
    requires !MentionsApp(dir) || (dir == [] && NoLayoutIn(fs, dir))
    ensures NearestLayout(fs, dir, None)
  {
    assert dir[..|dir|] == dir;
    forall k | 0 <= k <= |dir| && AppChain(dir, k)
      ensures NoLayoutIn(fs, dir[..k])
    {
      assert MentionsApp(dir[..|dir|]);
    }
  }

  lemma Found(fs: FS, dir: Path)
    requires MentionsApp(dir) && FirstExisting(fs, LayoutCandidates(dir)).Some?
    ensures NearestLayout(fs, dir, FirstExisting(fs, LayoutCandidates(dir)))
  {
    var p := FirstExisting(fs, LayoutCandidates(dir)).value;
    assert dir[..|dir|] == dir;
    assert Dirname(p) == dir && Basename(p) in LayoutFiles;
  }

  lemma WalkUp(fs: FS, dir: Path, r: Option<Path>)
    requires dir != [] && MentionsApp(dir) && NoLayoutIn(fs, dir)
    requires NearestLayout(fs, Dirname(dir), r)
    ensures NearestLayout(fs, dir, r)
  {
    var up := Dirname(dir);
    assert forall k :: 0 <= k < |dir| ==> dir[..k] == up[..k];
    assert dir[..|dir|] == dir;
    if r.Some? {
      var j := |r.value| - 1;
      forall k | j <= k <= |dir|
        ensures MentionsApp(dir[..k])
      {
        if k < |dir| {
          assert MentionsApp(up[..k]);
        }
      }
      forall k | j < k <= |dir|
        ensures NoLayoutIn(fs, dir[..k])
      {
        if k < |dir| {
          assert NoLayoutIn(fs, up[..k]);
        }
      }
    } else {
      forall k | 0 <= k <= |dir| && AppChain(dir, k)
        ensures NoLayoutIn(fs, dir[..k])
      {
        if k < |dir| {
          assert forall k' :: k <= k' <= |up| ==> MentionsApp(up[..k']) by {
            forall k' | k <= k' <= |up|
              ensures MentionsApp(up[..k'])
            {
              assert MentionsApp(dir[..k']);
            }
          }
          assert AppChain(up, k);
        }
      }
    }
  }

  /** The layout of a page file: searched for only in a Next.js project and inside an app directory. */
  function LayoutOf(fs: FS, projectType: Option<string>, pagePath: Path): Option<Path> {
    var dir := Dirname(pagePath);
    if projectType == Some("nextjs") && InAppDir(dir) then LayoutSearch(fs, dir) else None
  }

  /** A layout in the page's own directory is the one it gets, the first of layout.tsx, layout.jsx, layout.js present. */
  lemma OwnLayoutWins(fs: FS, pagePath: Path, i: nat)
    requires InAppDir(Dirname(pagePath)) && MentionsApp(Dirname(pagePath))
    requires i < 3 && Exists(fs, Dirname(pagePath) + [LayoutFiles[i]])
    ensures exists k :: 0 <= k <= i && LayoutOf(fs, Some("nextjs"), pagePath) == Some(Dirname(pagePath) + [LayoutFiles[k]])
  {
    var dir := Dirname(pagePath);
    FirstIsFirst(fs, LayoutCandidates(dir), i);
  }

  // ----------------------------------------------------------- components

  const ComponentExtensions: seq<string> := [".js", ".jsx", ".ts", ".tsx"]

  predicate FollowedImport(spec: string) {
    StartsWith(spec, ".") || StartsWith(spec, "@/")
  }

  /** The file a followed import names: its base with the first extension present, else the first `index` file present. */
  function ResolveComponent(fs: FS, spec: string, filePath: Path): (r: Option<Path>)
    ensures r.Some? ==> FollowedImport(spec) && Exists(fs, r.value)
  {
    if FollowedImport(spec) then FirstExisting(fs, ExtensionCandidates(NextjsAnalyzer.ImportBase(fs, spec, filePath), ComponentExtensions))
    else None
  }

  /** The resolved files of a list of specifiers, in order, unresolved ones dropped. */
  function ResolvedAll(fs: FS, specs: seq<string>, filePath: Path): (r: seq<Path>)
    ensures |r| <= |specs|
    decreases |specs|
  {
    if specs == [] then []
    else Piece(ResolveComponent(fs, specs[0], filePath)) + ResolvedAll(fs, specs[1..], filePath)
  }

  /** A file is among the resolved ones exactly when some specifier resolves to it. */
  lemma {:induction false} ResolvedAllMembers(fs: FS, specs: seq<string>, filePath: Path)
    ensures forall p :: p in ResolvedAll(fs, specs, filePath) <==> exists i :: 0 <= i < |specs| && ResolveComponent(fs, specs[i], filePath) == Some(p)
    decreases |specs|
  {
    if specs != [] {
      ResolvedAllMembers(fs, specs[1..], filePath);
      assert forall i :: 1 <= i < |specs| ==> specs[i] == specs[1..][i - 1];
      assert forall p :: (exists i :: 1 <= i < |specs| && ResolveComponent(fs, specs[i], filePath) == Some(p)) ==>
        exists i :: 0 <= i < |specs[1..]| && ResolveComponent(fs, specs[1..][i], filePath) == Some(p);
    }
  }

  /** `findComponentDependencies`: the set of files the `import … from '…'` statements resolve to, in first-seen order. */
  function ComponentDependenciesOf(fs: FS, stmts: seq<Stmt>, filePath: Path): seq<Path> {
    Dedup(ResolvedAll(fs, MatchAll(ImportFrom, stmts), filePath))
  }

  /** Each followed import adds the nearest of its candidates: with base + ext_i present, base + ext_k for some k <= i. */
  lemma ComponentPrecedence(fs: FS, spec: string, filePath: Path, i: nat)
    requires FollowedImport(spec) && i < 4
    requires Exists(fs, AddSuffix(NextjsAnalyzer.ImportBase(fs, spec, filePath), ComponentExtensions[i]))
    ensures exists k :: 0 <= k <= i && ResolveComponent(fs, spec, filePath) == Some(AddSuffix(NextjsAnalyzer.ImportBase(fs, spec, filePath), ComponentExtensions[k]))
  {
    ExtensionPrecedence(fs, NextjsAnalyzer.ImportBase(fs, spec, filePath), ComponentExtensions, i);
  }

  /** The resolved file of one specifier, as a list of zero or one paths. */
  function Piece<T>(hit: Option<T>): seq<T> {
    match hit case Some(p) => [p] case None => []
  }

  lemma ResolvedAllHead(fs: FS, specs: seq<string>, filePath: Path)
    requires |specs| > 0
    ensures ResolvedAll(fs, specs, filePath) == Piece(ResolveComponent(fs, specs[0], filePath)) + ResolvedAll(fs, specs[1..], filePath)
  {
  }

  lemma AddAllHit<T>(seen: seq<T>, hit: Option<T>, rest: seq<T>)
    ensures AddAll(seen, Piece(hit) + rest) ==
      AddAll(if hit.Some? && hit.value !in seen then seen + [hit.value] else seen, rest)
  {
    if hit.Some? {
      var xs := [hit.value] + rest;
      assert xs[0] == hit.value && xs[1..] == rest;
    } else {
      assert [] + rest == rest;
    }
  }

  /** The dependencies are distinct, and are exactly the files some import statement resolves to. */
  lemma ComponentDependenciesSpec(fs: FS, stmts: seq<Stmt>, filePath: Path)
    ensures Distinct(ComponentDependenciesOf(fs, stmts, filePath))
    ensures forall p :: p in ComponentDependenciesOf(fs, stmts, filePath) <==>
      exists s :: s in MatchAll(ImportFrom, stmts) && ResolveComponent(fs, s, filePath) == Some(p)
  {
    var specs := MatchAll(ImportFrom, stmts);
    DedupSpec(ResolvedAll(fs, specs, filePath));
    ResolvedAllMembers(fs, specs, filePath);
    forall p | p in ComponentDependenciesOf(fs, stmts, filePath)
      ensures exists s :: s in specs && ResolveComponent(fs, s, filePath) == Some(p)
    {
      var j :| 0 <= j < |specs| && ResolveComponent(fs, specs[j], filePath) == Some(p);
    }
  }

  /** One step of the resolution loop: the next specifier's file, when new, is appended to those kept so far. */
  lemma DedupStep(fs: FS, specs: seq<string>, filePath: Path, i: nat, before: seq<Path>)
    requires i < |specs| && AddAll(before, ResolvedAll(fs, specs[i..], filePath)) == Dedup(ResolvedAll(fs, specs, filePath))
    ensures var hit := ResolveComponent(fs, specs[i], filePath);
      AddAll(if hit.Some? && hit.value !in before then before + [hit.value] else before, ResolvedAll(fs, specs[i + 1..], filePath)) ==
        Dedup(ResolvedAll(fs, specs, filePath))
  {
    ResolvedAllHead(fs, specs[i..], filePath);
    assert specs[i..][0] == specs[i] && specs[i..][1..] == specs[i + 1..];
    AddAllHit(before, ResolveComponent(fs, specs[i], filePath), ResolvedAll(fs, specs[i + 1..], filePath));
  }

  method FindComponentDependencies(fs: FS, content: Content, filePath: Path) returns (r: seq<Path>)
    ensures r == ComponentDependenciesOf(fs, content.stmts, filePath)
    ensures Distinct(r)
    ensures forall p :: p in r <==> exists s :: s in MatchAll(ImportFrom, content.stmts) && ResolveComponent(fs, s, filePath) == Some(p)
  {
    var specs := MatchAll(ImportFrom, content.stmts);
    var basePath := Dirname(filePath);
    var projectRoot := FindProjectRoot(fs, basePath);
    r := [];
    var i := 0;
    while i < |specs|
      invariant 0 <= i <= |specs|
      invariant AddAll(r, ResolvedAll(fs, specs[i..], filePath)) == Dedup(ResolvedAll(fs, specs, filePath))
      invariant Distinct(r)
    {
      ghost var before := r;
      r := ResolveOne(fs, specs[i], filePath, basePath, projectRoot, r);
      DedupStep(fs, specs, filePath, i, before);
      i := i + 1;
    }
    assert specs[i..] == [];
    ComponentDependenciesSpec(fs, content.stmts, filePath);
  }

  /** One turn of the loop: a followed specifier's first existing candidate, added when not yet present. */
  method ResolveOne(fs: FS, spec: string, filePath: Path, basePath: Path, projectRoot: Path, r0: seq<Path>) returns (r: seq<Path>)
    requires basePath == Dirname(filePath) && projectRoot == NearestManifestDir(fs, basePath).GetOr(basePath)
    requires Distinct(r0)
    ensures var hit := ResolveComponent(fs, spec, filePath);
      r == if hit.Some? && hit.value !in r0 then r0 + [hit.value] else r0
    ensures Distinct(r)
  {
    r := r0;
    if StartsWith(spec, ".") || StartsWith(spec, "@/") {
      var resolvedPath := if StartsWith(spec, "@/") then Resolve(Resolve(projectRoot, "src"), spec[2..]) else Resolve(basePath, spec);
      assert resolvedPath == NextjsAnalyzer.ImportBase(fs, spec, filePath);
      var found := Probe(fs, ExtensionCandidates(resolvedPath, ComponentExtensions));
      if found.Some? && found.value !in r {
        r := r + [found.value];
      }
    }
  }

  // ------------------------------------------------------------ the scan

  /** What `pages` records for a page file. */
  datatype PageInfo = PageInfo(content: Content, layout: Option<Path>, route: string, isAppDir: bool)

  /** `/page\.(jsx?|tsx?)$/`: unanchored at the front, so `homepage.tsx` matches. */
  predicate PageFileName(name: string) {
    EndsWith(name, "page.js") || EndsWith(name, "page.jsx") || EndsWith(name, "page.ts") || EndsWith(name, "page.tsx")
  }

  predicate PageEntry(e: Dirent) {
    !e.isDir && PageFileName(e.name)
  }

  /** `entries.find(…)`: the first entry that is not a directory and has a page file name. */
  function FindPageFile(es: seq<Dirent>): (r: Option<string>)
    ensures r.Some? ==> PageFileName(r.value) && exists i :: 0 <= i < |es| && es[i].name == r.value && PageEntry(es[i]) && forall j :: 0 <= j < i ==> !PageEntry(es[j])
    ensures r.None? ==> forall i :: 0 <= i < |es| ==> !PageEntry(es[i])
    decreases |es|
  {
    if es == [] then None
    else if PageEntry(es[0]) then Some(es[0].name)
    else
      var r := FindPageFile(es[1..]);
      assert forall i :: 1 <= i < |es| ==> es[i] == es[1..][i - 1];
      if r.Some? then
        var i :| 0 <= i < |es[1..]| && es[1..][i].name == r.value && PageEntry(es[1..][i]) && forall j :: 0 <= j < i ==> !PageEntry(es[1..][j]);
        assert es[i + 1] == es[1..][i];
        r
      else r
  }

  /** The page file the scan picks in `dir`, if `dir` can be listed. */
  function PageFileIn(fs: FS, dir: Path): Option<Path> {
    match ReadDir(fs, dir)
    case Err(_) => None
    case Ok(es) => match FindPageFile(es) case None => None case Some(n) => Some(dir + [n])
  }

  /** Reading the page's layout succeeds: there is none, or it is a file. */
  predicate LayoutReadable(fs: FS, projectType: Option<string>, pagePath: Path) {
    LayoutOf(fs, projectType, pagePath).None? || IsFile(fs, LayoutOf(fs, projectType, pagePath).value)
  }

  /** The scan of `dir` stops before it records anything: the listing, the page read or its layout read throws. */
  predicate ScanAborts(fs: FS, projectType: Option<string>, dir: Path) {
    !IsDirectory(fs, dir) ||
    (PageFileIn(fs, dir).Some? && !(IsFile(fs, PageFileIn(fs, dir).value) && LayoutReadable(fs, projectType, PageFileIn(fs, dir).value)))
  }

  /** `k` lies strictly inside `dir`. */
  predicate Below(dir: Path, k: Path) {
    |k| > |dir| && k[..|dir|] == dir
  }

  /** A page scan touches only paths below the scanned directory: its page first, then deeper paths. */
  lemma ScanFrame<V>(pg0: OMap<Path, V>, pg1: OMap<Path, V>, pg2: OMap<Path, V>, dir: Path, page: Option<string>)
    requires forall k :: k in pg1.m ==> (k in pg0.m && pg1.m[k] == pg0.m[k]) || (page.Some? && k == dir + [page.value])
    requires forall k :: k in pg2.m ==> (k in pg1.m && pg2.m[k] == pg1.m[k]) || (|k| >= |dir| + 2 && k[..|dir|] == dir)
    ensures forall k :: k in pg2.m ==> (k in pg0.m && pg2.m[k] == pg0.m[k]) || Below(dir, k)
  {
    forall k | k in pg2.m
      ensures (k in pg0.m && pg2.m[k] == pg0.m[k]) || Below(dir, k)
    {
      if k in pg1.m && pg2.m[k] == pg1.m[k] && !(k in pg0.m && pg1.m[k] == pg0.m[k]) {
        assert k[..|dir|] == dir;
      }
    }
  }

  /** A sub-directory the scan descends into: its name starts with neither `_` nor `.`. */
  predicate Directory(e: Dirent) {
    e.isDir && !StartsWith(e.name, "_") && !StartsWith(e.name, ".")
  }

  /** The route path a scan passes to the sub-directory `name`. */
  function SubRoute(route: string, name: string): string {
    JoinRelative(route, NormalizeRouteSegment(name))
  }

  /** Two page maps hold the same entry, or none, at `k`. */
  predicate Agree<V(==)>(pg1: map<Path, V>, pg2: map<Path, V>, k: Path) {
    (k in pg1 <==> k in pg2) && (k in pg1 ==> pg1[k] == pg2[k])
  }

  /** The page file `p` of `dir` is recorded as read, with its layout, the route built from `route`, and the app-directory flag. */
  ghost predicate PageAt(fs: FS, pt: Option<string>, dir: Path, p: Path, route: string, pg: map<Path, PageInfo>) {
    IsFile(fs, p) && p in pg &&
    pg[p] == PageInfo(fs[p].content, LayoutOf(fs, pt, p), BuildRouteFromPath(route), InAppDir(dir))
  }

  /**
   * Everything a scan of `dir` with route path `route` records is in `pg`:
   * unless the scan aborts at `dir`, its page file, and recursively the
   * scan of every sub-directory not starting with `_` or `.`.
   */
  ghost predicate Scanned(fs: FS, pt: Option<string>, dir: Path, route: string, pg: map<Path, PageInfo>)
    decreases Height(fs, dir)
  {
    match ReadDir(fs, dir)
    case Err(_) => true
    case Ok(entries) =>
      ScanAborts(fs, pt, dir) ||
      ((PageFileIn(fs, dir).Some? ==> PageAt(fs, pt, dir, PageFileIn(fs, dir).value, route, pg)) &&
       forall i :: 0 <= i < |entries| && Directory(entries[i]) ==>
         assert |dir + [entries[i].name]| <= Depth(fs);
         Scanned(fs, pt, dir + [entries[i].name], SubRoute(route, entries[i].name), pg))
  }

  /** What the scan of `dir` recorded depends only on the entries below `dir`. */
  lemma {:induction false} ScannedFrame(fs: FS, pt: Option<string>, dir: Path, route: string, pg1: map<Path, PageInfo>, pg2: map<Path, PageInfo>)
    requires Scanned(fs, pt, dir, route, pg1)
    requires forall k :: Below(dir, k) ==> Agree(pg1, pg2, k)
    ensures Scanned(fs, pt, dir, route, pg2)
    decreases Height(fs, dir)
  {
    match ReadDir(fs, dir)
    case Err(_) =>
    case Ok(entries) =>
      if !ScanAborts(fs, pt, dir) {
        var p := PageFileIn(fs, dir);
        if p.Some? {
          assert Below(dir, p.value);
        }
        forall i | 0 <= i < |entries| && Directory(entries[i])
          ensures Scanned(fs, pt, dir + [entries[i].name], SubRoute(route, entries[i].name), pg2)
        {
          var sub := dir + [entries[i].name];
          assert |sub| <= Depth(fs);
          forall k | Below(sub, k)
            ensures Agree(pg1, pg2, k)
          {
            BelowChild(dir, entries[i].name, k);
          }
          ScannedFrame(fs, pt, sub, SubRoute(route, entries[i].name), pg1, pg2);
        }
      }
  }

  /** Every entry changed or added since `pg0` lies at least two levels inside `dir`. */
  ghost predicate DeeperChanges<V>(pg0: map<Path, V>, pg: map<Path, V>, dir: Path) {
    forall k :: k in pg ==> (k in pg0 && pg[k] == pg0[k]) || (|k| >= |dir| + 2 && k[..|dir|] == dir)
  }

  /** The scans of the first `i` entries of `dir` are recorded in `pg`. */
  ghost predicate SubsScanned(fs: FS, pt: Option<string>, dir: Path, route: string, entries: seq<Dirent>, i: nat, pg: map<Path, PageInfo>) {
    forall j :: 0 <= j < i && j < |entries| ==> SubScanned(fs, pt, dir, route, entries[j], pg)
  }

  /** The sub-directory loop's invariant survives the scan of entry `i`, which changes `pg1` into `pg2` below that entry only. */
  lemma SubdirectoryStep(fs: FS, pt: Option<string>, dir: Path, entries: seq<Dirent>, route: string, i: nat,
                         pg0: OMap<Path, PageInfo>, pg1: OMap<Path, PageInfo>, pg2: OMap<Path, PageInfo>)
    requires i < |entries| && Directory(entries[i]) && Grown(pg1, pg2)
    requires DeeperChanges(pg0.m, pg1.m, dir) && SubsScanned(fs, pt, dir, route, entries, i, pg1.m)
    requires forall k :: k in pg2.m ==> (k in pg1.m && pg2.m[k] == pg1.m[k]) || Below(dir + [entries[i].name], k)
    requires Scanned(fs, pt, dir + [entries[i].name], SubRoute(route, entries[i].name), pg2.m)
    ensures DeeperChanges(pg0.m, pg2.m, dir) && SubsScanned(fs, pt, dir, route, entries, i + 1, pg2.m)
  {
    FrameAgree(pg1, pg2, dir + [entries[i].name]);
    SiblingsKept(fs, pt, dir, entries, route, i, pg1.m, pg2.m);
    forall k | k in pg2.m
      ensures (k in pg0.m && pg2.m[k] == pg0.m[k]) || (|k| >= |dir| + 2 && k[..|dir|] == dir)
    {
      if !(k in pg1.m && pg2.m[k] == pg1.m[k]) {
        BelowChild(dir, entries[i].name, k);
      }
    }
  }

  /** Joining two plain segments appends both. */
  lemma JoinTwo(base: Path, a: string, b: string)
    requires CleanSegment(a) && CleanSegment(b)
    ensures JoinSpec(base, a + "/" + b) == base + [a, b]
  {
    var parts := [a, b];
    assert parts[1..] == [b];
    assert Join(parts, "/") == a + "/" + b;
    SplitJoin(parts, '/');
    assert Normalize(base, parts) == Normalize(base + [a], [b]);
    assert Normalize(base + [a], [b]) == Normalize(base + [a] + [b], []);
  }

  /** A path inside `a` is not inside `b` when the two differ at a position both have. */
  lemma DifferAt(a: Path, b: Path, p: nat, k: Path)
    requires p < |a| && p < |b| && a[p] != b[p] && Below(a, k)
    ensures !Below(b, k)
  {
    assert k[p] == k[..|a|][p];
    if |b| <= |k| {
      assert k[..|b|][p] == k[p];
    }
  }

  /** The Next.js page directories joined to the project root. */
  lemma NextPagesDirs(r: Path)
    ensures PagesDirs(Some("nextjs")) == ["src/app", "app", "pages", "src/pages"]
    ensures JoinSpec(r, "src/app") == r + ["src", "app"] && JoinSpec(r, "src/pages") == r + ["src", "pages"]
    ensures JoinSpec(r, "app") == r + ["app"] && JoinSpec(r, "pages") == r + ["pages"]
  {
    JoinTwo(r, "src", "app");
    JoinTwo(r, "src", "pages");
    JoinSegment(r, "app");
    JoinSegment(r, "pages");
    assert "src" + "/" + "app" == "src/app" && "src" + "/" + "pages" == "src/pages";
  }

  /** No path lies inside two of the flavour's page directories. */
  lemma PagesDirsApart(projectRoot: Path, pt: Option<string>, i: nat, j: nat, k: Path)
    requires j < i < |PagesDirs(pt)| && Below(JoinSpec(projectRoot, PagesDirs(pt)[j]), k)
    ensures !Below(JoinSpec(projectRoot, PagesDirs(pt)[i]), k)
  {
    if pt == Some("nextjs") {
      var r := projectRoot;
      NextPagesDirs(r);
      var srcApp, app, pages, srcPages := r + ["src", "app"], r + ["app"], r + ["pages"], r + ["src", "pages"];
      assert srcApp[|r|] == "src" && srcPages[|r|] == "src" && app[|r|] == "app" && pages[|r|] == "pages";
      assert srcApp[|r| + 1] == "app" && srcPages[|r| + 1] == "pages";
      assert "src"[0] == 's' && "app"[0] == 'a' && "pages"[0] == 'p';
      if j == 0 {
        if i == 1 {
          DifferAt(srcApp, app, |r|, k);
        } else if i == 2 {
          DifferAt(srcApp, pages, |r|, k);
        } else {
          DifferAt(srcApp, srcPages, |r| + 1, k);
        }
      } else if j == 1 {
        if i == 2 {
          DifferAt(app, pages, |r|, k);
        } else {
          DifferAt(app, srcPages, |r|, k);
        }
      } else {
        DifferAt(pages, srcPages, |r|, k);
      }
    }
  }

  /** The earlier page directories' scans survive the scan of directory `i`, which changes `pg1` into `pg2` below it only. */
  lemma PagesDirStep(fs: FS, pt: Option<string>, projectRoot: Path, i: nat, pg1: OMap<Path, PageInfo>, pg2: OMap<Path, PageInfo>)
    requires i < |PagesDirs(pt)| && Grown(pg1, pg2)
    requires forall j :: 0 <= j < i ==> Scanned(fs, pt, JoinSpec(projectRoot, PagesDirs(pt)[j]), "", pg1.m)
    requires Scanned(fs, pt, JoinSpec(projectRoot, PagesDirs(pt)[i]), "", pg2.m)
    requires forall k :: k in pg2.m ==> (k in pg1.m && pg2.m[k] == pg1.m[k]) || Below(JoinSpec(projectRoot, PagesDirs(pt)[i]), k)
    ensures forall j :: 0 <= j <= i ==> Scanned(fs, pt, JoinSpec(projectRoot, PagesDirs(pt)[j]), "", pg2.m)
  {
    FrameAgree(pg1, pg2, JoinSpec(projectRoot, PagesDirs(pt)[i]));
    forall j | 0 <= j < i
      ensures Scanned(fs, pt, JoinSpec(projectRoot, PagesDirs(pt)[j]), "", pg2.m)
    {
      var dir := JoinSpec(projectRoot, PagesDirs(pt)[j]);
      forall k | Below(dir, k)
        ensures Agree(pg1.m, pg2.m, k)
      {
        PagesDirsApart(projectRoot, pt, i, j, k);
      }
      ScannedFrame(fs, pt, dir, "", pg1.m, pg2.m);
    }
  }

  /** A map grown by changes below `dir` only agrees with the old one everywhere else. */
  lemma FrameAgree<V>(pg1: OMap<Path, V>, pg2: OMap<Path, V>, dir: Path)
    requires Grown(pg1, pg2)
    requires forall k :: k in pg2.m ==> (k in pg1.m && pg2.m[k] == pg1.m[k]) || Below(dir, k)
    ensures forall k :: !Below(dir, k) ==> Agree(pg1.m, pg2.m, k)
  {
  }

  /** Nothing lies inside two different children of one directory. */
  lemma BelowApart(dir: Path, a: string, b: string, k: Path)
    requires a != b && Below(dir + [a], k)
    ensures !Below(dir + [b], k)
  {
    assert k[|dir|] == k[..|dir| + 1][|dir|] == a;
  }

  /** The scan of the entry `e` of `dir`, when the scan descends into it, is recorded in `pg`. */
  ghost predicate SubScanned(fs: FS, pt: Option<string>, dir: Path, route: string, e: Dirent, pg: map<Path, PageInfo>) {
    Directory(e) ==> Scanned(fs, pt, dir + [e.name], SubRoute(route, e.name), pg)
  }

  /** The earlier sub-directories' scans survive the scan of entry `i`, which changes only entries below it. */
  lemma {:induction false} SiblingsKept(fs: FS, pt: Option<string>, dir: Path, entries: seq<Dirent>, route: string, i: nat, pg1: map<Path, PageInfo>, pg2: map<Path, PageInfo>)
    requires i < |entries| && Directory(entries[i])
    requires forall j :: 0 <= j < i ==> SubScanned(fs, pt, dir, route, entries[j], pg1)
    requires SubScanned(fs, pt, dir, route, entries[i], pg2)
    requires forall k :: !Below(dir + [entries[i].name], k) ==> Agree(pg1, pg2, k)
    ensures forall j :: 0 <= j <= i ==> SubScanned(fs, pt, dir, route, entries[j], pg2)
  {
    forall j | 0 <= j <= i
      ensures SubScanned(fs, pt, dir, route, entries[j], pg2)
    {
      if j < i {
        SiblingStep(fs, pt, dir, route, entries[j], entries[i], pg1, pg2);
      }
    }
  }

  /** One earlier entry `a` of the sibling loop, after the scan of the entry `b`. */
  lemma SiblingStep(fs: FS, pt: Option<string>, dir: Path, route: string, a: Dirent, b: Dirent, pg1: map<Path, PageInfo>, pg2: map<Path, PageInfo>)
    requires Directory(b) && SubScanned(fs, pt, dir, route, a, pg1) && SubScanned(fs, pt, dir, route, b, pg2)
    requires forall k :: !Below(dir + [b.name], k) ==> Agree(pg1, pg2, k)
    ensures SubScanned(fs, pt, dir, route, a, pg2)
  {
    if Directory(a) && a.name != b.name {
      SiblingKept(fs, pt, dir, a.name, b.name, route, pg1, pg2);
    } else if Directory(a) {
      assert a == b;
    }
  }

  /** The scan of the sub-directory `a` survives the scan of its sibling `b`. */
  lemma {:induction false} SiblingKept(fs: FS, pt: Option<string>, dir: Path, a: string, b: string, route: string, pg1: map<Path, PageInfo>, pg2: map<Path, PageInfo>)
    requires a != b && Scanned(fs, pt, dir + [a], SubRoute(route, a), pg1)
    requires forall k :: !Below(dir + [b], k) ==> Agree(pg1, pg2, k)
    ensures Scanned(fs, pt, dir + [a], SubRoute(route, a), pg2)
  {
    forall k | Below(dir + [a], k)
      ensures Agree(pg1, pg2, k)
    {
      BelowApart(dir, a, b, k);
    }
    ScannedFrame(fs, pt, dir + [a], SubRoute(route, a), pg1, pg2);
  }

  // ------------------------------------------------------------ the graph

  function AppNode(projectType: string, projectRoot: Path): GraphNode {
    GraphNode(Str(projectType + "-" + PathString(projectRoot)), ProjectTypeName(Some(projectType)), "application",
      None, 0, 30.0, Some(projectType), Some(PathString(projectRoot)))
  }

  function FileGroup(kind: string): int {
    if kind == "page" then 1 else if kind == "layout" then 2 else 3
  }

  function FileRadius(kind: string): real {
    if kind == "page" then 15.0 else if kind == "layout" then 20.0 else 10.0
  }

  /** `createFileNode`: the file's node, its project root found walking up from the file path itself. */
  function FileNode(fs: FS, filePath: Path, content: Content, kind: string, projectType: Option<string>): GraphNode {
    GraphNode(Str(PathString(filePath)), Basename(filePath), kind, Some(content.text), FileGroup(kind), FileRadius(kind),
      projectType, Some(PathString(NearestManifestDir(fs, filePath).GetOr(filePath))))
  }

  function DependencyNode(dep: Path, content: Content, projectType: Option<string>): GraphNode {
    GraphNode(Str(PathString(dep)), Basename(dep), "component", Some(content.text), 3, 10.0, projectType, None)
  }

  ghost function LayoutIds(layouts: OMap<Path, Content>): set<NodeId> {
    set k | k in layouts.m :: Str(PathString(k))
  }

  /**
   * The one structural link of a node: a layout hangs from the application
   * node, a page from its recorded layout or else the application node, and
   * a component is the target of the import that found it.
   */
  predicate Structural(l: GraphLink, n: GraphNode, app: NodeId, layoutIds: set<NodeId>) {
    (n.kind == "layout" && l == GraphLink(n.id, app, 2, Some("layout-structure"))) ||
    (n.kind == "page" && (l == GraphLink(n.id, app, 1, Some("route")) ||
      (l.source == n.id && l.target in layoutIds && l.value == 2 && l.kind == Some("uses-layout")))) ||
    (n.kind == "component" && l.target == n.id && l.value == 1 && l.kind == Some("imports"))
  }

  /**
   * The structural link of a page: `uses-layout` with value 2 to the
   * layout it records when that layout is recorded too, else `route` with
   * value 1 to the application node.
   */
  function PageLink(pagePath: Path, info: PageInfo, layouts: OMap<Path, Content>, app: NodeId): GraphLink {
    if info.layout.Some? && info.layout.value in layouts.m then GraphLink(Str(PathString(pagePath)), Str(PathString(info.layout.value)), 2, Some("uses-layout"))
    else GraphLink(Str(PathString(pagePath)), app, 1, Some("route"))
  }

  /** Every node from position `from` on is a component. */
  predicate ComponentsFrom(nodes: seq<GraphNode>, from: nat) {
    forall k :: from <= k < |nodes| ==> nodes[k].kind == "component"
  }

  /** No node from position `from` on is a page. */
  predicate NoPagesFrom(nodes: seq<GraphNode>, from: nat) {
    forall k :: from <= k < |nodes| ==> nodes[k].kind != "page"
  }

  /**
   * Every page node is linked as its recorded page says: its structural
   * link is the PageLink of a recorded page whose path is the node's id.
   */
  ghost predicate PagesLinked(nodes: seq<GraphNode>, links: seq<GraphLink>, pages: OMap<Path, PageInfo>, layouts: OMap<Path, Content>, app: NodeId) {
    forall k :: 0 <= k < |links| && k + 1 < |nodes| && nodes[k + 1].kind == "page" ==> LinkedAsPage(nodes[k + 1], links[k], pages, layouts, app)
  }

  /** The link `l` of the node `n` is the PageLink of a recorded page whose path is `n`'s id. */
  ghost predicate LinkedAsPage(n: GraphNode, l: GraphLink, pages: OMap<Path, PageInfo>, layouts: OMap<Path, Content>, app: NodeId) {
    exists p :: p in pages.m && n.id == Str(PathString(p)) && l == PageLink(p, pages.m[p], layouts, app)
  }

  /** Components appended after a prefix whose nodes from `from` on are components: still components from `from` on. */
  lemma ComponentsTrans(n1: seq<GraphNode>, nodes: seq<GraphNode>, from: nat)
    requires |n1| <= |nodes| && nodes[..|n1|] == n1 && ComponentsFrom(n1, from) && ComponentsFrom(nodes, |n1|)
    ensures ComponentsFrom(nodes, from)
  {
    forall k | from <= k < |n1|
      ensures nodes[k].kind == "component"
    {
      assert nodes[k] == n1[k];
    }
  }

  /** A layout, or nothing, then components: still no page from `from` on. */
  lemma NoPagesStep(n1: seq<GraphNode>, nodes: seq<GraphNode>, from: nat)
    requires |n1| <= |nodes| && nodes[..|n1|] == n1 && NoPagesFrom(n1, from)
    requires |nodes| > |n1| ==> nodes[|n1|].kind != "page" && ComponentsFrom(nodes, |n1| + 1)
    ensures NoPagesFrom(nodes, from)
  {
    forall k | from <= k < |n1|
      ensures nodes[k].kind != "page"
    {
      assert nodes[k] == n1[k];
    }
  }

  /** A page's node and its PageLink, then components: every page node is still linked as its page says. */
  lemma PagesLinkedStep(n1: seq<GraphNode>, l1: seq<GraphLink>, nodes: seq<GraphNode>, links: seq<GraphLink>,
                        pages: OMap<Path, PageInfo>, layouts: OMap<Path, Content>, app: NodeId, pagePath: Path)
    requires PagesLinked(n1, l1, pages, layouts, app) && |l1| + 1 == |n1|
    requires |n1| < |nodes| && nodes[..|n1|] == n1 && |l1| < |links| && links[..|l1|] == l1
    requires pagePath in pages.m && nodes[|n1|].id == Str(PathString(pagePath)) && links[|l1|] == PageLink(pagePath, pages.m[pagePath], layouts, app)
    requires ComponentsFrom(nodes, |n1| + 1)
    ensures PagesLinked(nodes, links, pages, layouts, app)
  {
    forall k | 0 <= k < |links| && k + 1 < |nodes| && nodes[k + 1].kind == "page"
      ensures LinkedAsPage(nodes[k + 1], links[k], pages, layouts, app)
    {
      assert k <= |l1|;
      if k < |l1| {
        assert nodes[k + 1] == n1[k + 1] && links[k] == l1[k];
      } else {
        assert nodes[k + 1].id == Str(PathString(pagePath)) && links[k] == PageLink(pagePath, pages.m[pagePath], layouts, app);
      }
    }
  }

  /** With no two recorded pages sharing a path string, a page node's link is exactly its own page's PageLink. */
  lemma OwnPageLink(nodes: seq<GraphNode>, links: seq<GraphLink>, pages: OMap<Path, PageInfo>, layouts: OMap<Path, Content>, app: NodeId,
                    k: nat, p: Path)
    requires PagesLinked(nodes, links, pages, layouts, app)
    requires forall q1, q2 :: q1 in pages.m && q2 in pages.m && PathString(q1) == PathString(q2) ==> q1 == q2
    requires k < |links| && k + 1 < |nodes| && nodes[k + 1].kind == "page" && p in pages.m && nodes[k + 1].id == Str(PathString(p))
    ensures links[k] == PageLink(p, pages.m[p], layouts, app)
  {
    var q :| q in pages.m && nodes[k + 1].id == Str(PathString(q)) && links[k] == PageLink(q, pages.m[q], layouts, app);
    assert PathString(q) == PathString(p);
  }

  /**
   * The accumulator's invariant: the tree shape with the application node
   * first, one node per path, the processed set holding exactly the paths
   * that have a node, and every link structural.
   */
  ghost predicate Good(nodes: seq<GraphNode>, links: seq<GraphLink>, processed: set<string>, app: GraphNode, layoutIds: set<NodeId>) {
    Tree(nodes, links) && nodes[0] == app && app.id.Str? && !StartsWith(app.id.s, "/") && UniqueIds(nodes) &&
    (forall k :: 1 <= k < |nodes| ==> nodes[k].id.Str? && nodes[k].id.s in processed) &&
    (forall s :: s in processed ==> Str(s) in Ids(nodes) && StartsWith(s, "/")) &&
    (forall k :: 0 <= k < |links| ==> Structural(links[k], nodes[k + 1], app.id, layoutIds))
  }

  ghost predicate Inv(ctx: Context, app: GraphNode, layoutIds: set<NodeId>)
    reads ctx
  {
    Good(ctx.nodes, ctx.links, ctx.processed, app, layoutIds)
  }

  /** Adding the node of a path not yet processed, with its structural link to an existing node, keeps the invariant. */
  lemma AddStep(nodes: seq<GraphNode>, links: seq<GraphLink>, processed: set<string>, app: GraphNode, layoutIds: set<NodeId>,
                s: string, n: GraphNode, l: GraphLink)
    requires Good(nodes, links, processed, app, layoutIds)
    requires s !in processed && StartsWith(s, "/") && n.id == Str(s)
    requires Introduces(l) == n.id && Anchor(l) in Ids(nodes) && Structural(l, n, app.id, layoutIds)
    ensures Good(nodes + [n], links + [l], processed + {s}, app, layoutIds)
  {
    TreeExtend(nodes, links, n, l);
    IdsAppend(nodes, n);
    var ns := nodes + [n];
    var ls := links + [l];
    forall i, j | 0 <= i < j < |ns|
      ensures ns[i].id != ns[j].id
    {
      if j == |nodes| && i > 0 {
        assert ns[i].id.s in processed;
      }
    }
    forall k | 0 <= k < |ls|
      ensures Structural(ls[k], ns[k + 1], app.id, layoutIds)
    {
      if k < |links| {
        assert ls[k] == links[k] && ns[k + 1] == nodes[k + 1];
      }
    }
  }

  lemma IdsKept(n0: seq<GraphNode>, n1: seq<GraphNode>)
    requires |n1| >= |n0| && n1[..|n0|] == n0
    ensures Ids(n0) <= Ids(n1)
  {
    forall x | x in Ids(n0)
      ensures x in Ids(n1)
    {
      var w :| 0 <= w < |n0| && n0[w].id == x;
      assert n1[w] == n0[w];
    }
  }

  /** No structural kind but 'imports' points down. */
  lemma UpwardKinds()
    ensures !Downward(Some("layout-structure")) && !Downward(Some("route")) && !Downward(Some("uses-layout"))
  {
    assert "imports"[0] == 'i' && "layout-structure"[0] == 'l' && "route"[0] == 'r' && "uses-layout"[0] == 'u';
  }

  /**
   * `ReactAnalyzer`: the pages and layouts found so far, which persist from
   * one analysis to the next, and the flavour of the last project analysed.
   */
  class ReactAnalyzer {
    var pages: OMap<Path, PageInfo>
    var layouts: OMap<Path, Content>
    var projectType: Option<string>

    ghost predicate Valid()
      reads this
    {
      pages.Valid() && layouts.Valid()
    }

    /** The maps hold what the filesystem holds. */
    ghost predicate Recorded(fs: FS)
      reads this
    {
      RecordedIn(fs, pages, layouts)
    }

    constructor ()
      ensures Valid() && pages.keys == [] && layouts.keys == [] && projectType == None
    {
      pages := EmptyMap();
      layouts := EmptyMap();
      projectType := None;
    }

    /**
     * `findLayout`: for a Next.js page in an app directory, the nearest
     * layout file walking up, recorded in `layouts`; a layout that exists
     * but cannot be read makes it throw.
     */
    method FindLayout(fs: FS, filePath: Path) returns (r: Result<Option<Path>, IoError>)
      requires Valid()
      modifies this
      ensures Valid() && pages == old(pages) && projectType == old(projectType)
      ensures var l := LayoutOf(fs, projectType, filePath); (r.Err? <==> l.Some? && !IsFile(fs, l.value)) && (r.Ok? ==> r.value == l)
      ensures r.Ok? && r.value.Some? ==> layouts == old(layouts).Put(r.value.value, fs[r.value.value].content)
      ensures !(r.Ok? && r.value.Some?) ==> layouts == old(layouts)
    {
      var dirPath := Dirname(filePath);
      if projectType == Some("nextjs") && InAppDir(dirPath) {
        var currentDir := dirPath;
        while MentionsApp(currentDir)
          invariant LayoutSearch(fs, dirPath) == LayoutSearch(fs, currentDir)
          invariant layouts == old(layouts) && pages == old(pages) && projectType == old(projectType)
          decreases |currentDir|
        {
          var found := Probe(fs, LayoutCandidates(currentDir));
          if found.Some? {
            match ReadFile(fs, found.value)
            case Err(e) =>
              return Err(e);
            case Ok(layoutContent) =>
              layouts := layouts.Put(found.value, layoutContent);
              return Ok(found);
          }
          var parentDir := Dirname(currentDir);
          if parentDir == currentDir {
            break;
          }
          currentDir := parentDir;
        }
      }
      return Ok(None);
    }

    /** The page file of one directory: read it, find its layout, and record it under its route. */
    method ScanPageFile(fs: FS, currentPath: Path, entries: seq<Dirent>, routePath: string) returns (ok: bool)
      requires Valid() && ReadDir(fs, currentPath) == Ok(entries)
      modifies this
      ensures Valid() && projectType == old(projectType) && Grown(old(pages), pages) && Grown(old(layouts), layouts)
      ensures old(Recorded(fs)) ==> Recorded(fs)
      ensures FindPageFile(entries).None? ==> ok && pages == old(pages) && layouts == old(layouts)
      ensures forall k :: k in pages.m ==> (k in old(pages.m) && pages.m[k] == old(pages.m)[k]) || (FindPageFile(entries).Some? && k == currentPath + [FindPageFile(entries).value])
      ensures FindPageFile(entries).Some? ==> var p := currentPath + [FindPageFile(entries).value];
        (ok <==> IsFile(fs, p) && LayoutReadable(fs, projectType, p)) &&
        (!ok ==> pages == old(pages) && layouts == old(layouts)) &&
        (ok ==> pages == old(pages).Put(p, PageInfo(fs[p].content, LayoutOf(fs, projectType, p), BuildRouteFromPath(routePath), InAppDir(currentPath))))
    {
      ok := true;
      PutGrown(pages, [], PageInfo(Content("", [], None), None, "", false));
      var pageFile := FindPageFile(entries);
      if pageFile.Some? {
        var fullPath := currentPath + [pageFile.value];
        match ReadFile(fs, fullPath)
        case Err(_) =>
          ok := false;
        case Ok(content) =>
          assert Basename(fullPath) == pageFile.value;
          ok := RecordPage(fs, currentPath, fullPath, content, routePath);
      }
    }

    /** A page file read as `content`: find its layout, then record the page under its route. */
    method RecordPage(fs: FS, currentPath: Path, fullPath: Path, content: Content, routePath: string) returns (ok: bool)
      requires Valid() && ReadFile(fs, fullPath) == Ok(content) && PageFileName(Basename(fullPath))
      modifies this
      ensures Valid() && projectType == old(projectType) && Grown(old(pages), pages) && Grown(old(layouts), layouts)
      ensures old(Recorded(fs)) ==> Recorded(fs)
      ensures ok <==> LayoutReadable(fs, projectType, fullPath)
      ensures !ok ==> pages == old(pages) && layouts == old(layouts)
      ensures ok ==> pages == old(pages).Put(fullPath, PageInfo(fs[fullPath].content, LayoutOf(fs, projectType, fullPath), BuildRouteFromPath(routePath), InAppDir(currentPath)))
    {
      ghost var recorded := Recorded(fs);
      ghost var l0 := layouts;
      var layout := FindLayout(fs, fullPath);
      if layout.Err? {
        return false;
      }
      ok := true;
      if layout.value.Some? {
        PutGrown(l0, layout.value.value, fs[layout.value.value].content);
      }
      var route := BuildRouteFromPath(routePath);
      var info := PageInfo(content, layout.value, route, InAppDir(currentPath));
      PutGrown(pages, fullPath, info);
      ghost var p0 := pages;
      pages := pages.Put(fullPath, info);
      if recorded {
        if layout.value.Some? {
          LayoutPut(fs, p0, l0, layout.value.value);
        }
        PagePut(fs, p0, layouts, fullPath, info);
      }
    }

    /**
     * `scanPagesRecursively`: record the directory's page, then scan every
     * sub-directory not starting with `_` or `.`, its route path extended by
     * the rewritten name. Any error, in the listing, the page read or the
     * layout read, is swallowed and ends the scan of this directory there,
     * sub-directories included.
     */
    method ScanPagesRecursively(fs: FS, currentPath: Path, routePath: string)
      requires Valid()
      modifies this
      ensures Valid() && projectType == old(projectType) && Grown(old(pages), pages) && Grown(old(layouts), layouts)
      ensures old(Recorded(fs)) ==> Recorded(fs)
      ensures forall k :: k in pages.m ==> (k in old(pages.m) && pages.m[k] == old(pages.m)[k]) || Below(currentPath, k)
      ensures ScanAborts(fs, projectType, currentPath) ==> pages == old(pages) && layouts == old(layouts)
      ensures var p := PageFileIn(fs, currentPath);
        p.Some? && !ScanAborts(fs, projectType, currentPath) ==>
          p.value in pages.m && pages.m[p.value] == PageInfo(fs[p.value].content, LayoutOf(fs, projectType, p.value), BuildRouteFromPath(routePath), InAppDir(currentPath))
      ensures Scanned(fs, projectType, currentPath, routePath, pages.m)
      decreases Height(fs, currentPath), 2
    {
      match ReadDir(fs, currentPath)
      case Err(_) =>
        PutGrown(pages, [], PageInfo(Content("", [], None), None, "", false));
        PutGrown(layouts, [], Content("", [], None));
      case Ok(entries) =>
        ghost var pg0, ly0 := pages, layouts;
        var ok := ScanPageFile(fs, currentPath, entries, routePath);
        if !ok {
          return;
        }
        ghost var pg1, ly1 := pages, layouts;
        ScanSubdirectories(fs, currentPath, entries, routePath);
        GrownTrans(pg0, pg1, pages);
        GrownTrans(ly0, ly1, layouts);
        ScanFrame(pg0, pg1, pages, currentPath, FindPageFile(entries));
        var p := PageFileIn(fs, currentPath);
        if p.Some? {
          assert p.value in pg1.m && |p.value| == |currentPath| + 1;
        }
    }

    /** The sub-directory loop of `scanPagesRecursively`. */
    method ScanSubdirectories(fs: FS, currentPath: Path, entries: seq<Dirent>, routePath: string)
      requires Valid() && ReadDir(fs, currentPath) == Ok(entries)
      modifies this
      ensures Valid() && projectType == old(projectType) && Grown(old(pages), pages) && Grown(old(layouts), layouts)
      ensures old(Recorded(fs)) ==> Recorded(fs)
      ensures forall k :: k in pages.m ==> (k in old(pages.m) && pages.m[k] == old(pages.m)[k]) || (|k| >= |currentPath| + 2 && k[..|currentPath|] == currentPath)
      ensures forall i :: 0 <= i < |entries| ==> SubScanned(fs, projectType, currentPath, routePath, entries[i], pages.m)
      decreases Height(fs, currentPath), 1
    {
      ghost var pg0, ly0 := pages, layouts;
      ghost var recorded := Recorded(fs);
      PutGrown(pages, [], PageInfo(Content("", [], None), None, "", false));
      PutGrown(layouts, [], Content("", [], None));
      var i := 0;
      while i < |entries|
        invariant 0 <= i <= |entries|
        invariant Valid() && projectType == old(projectType) && Grown(pg0, pages) && Grown(ly0, layouts)
        invariant recorded ==> Recorded(fs)
        invariant DeeperChanges(pg0.m, pages.m, currentPath) && SubsScanned(fs, projectType, currentPath, routePath, entries, i, pages.m)
      {
        ScanSubdirectory(fs, currentPath, entries, routePath, i, pg0, ly0, recorded);
        i := i + 1;
      }
    }

    /** One entry of the sub-directory loop: a directory the scan descends into is scanned with its extended route path. */
    method ScanSubdirectory(fs: FS, currentPath: Path, entries: seq<Dirent>, routePath: string, i: nat,
                            ghost pg0: OMap<Path, PageInfo>, ghost ly0: OMap<Path, Content>, ghost recorded: bool)
      requires Valid() && ReadDir(fs, currentPath) == Ok(entries) && i < |entries|
      requires Grown(pg0, pages) && Grown(ly0, layouts) && (recorded ==> Recorded(fs))
      requires DeeperChanges(pg0.m, pages.m, currentPath) && SubsScanned(fs, projectType, currentPath, routePath, entries, i, pages.m)
      modifies this
      ensures Valid() && projectType == old(projectType) && Grown(pg0, pages) && Grown(ly0, layouts) && (recorded ==> Recorded(fs))
      ensures DeeperChanges(pg0.m, pages.m, currentPath) && SubsScanned(fs, projectType, currentPath, routePath, entries, i + 1, pages.m)
      decreases Height(fs, currentPath), 0
    {
      var entry := entries[i];
      if Directory(entry) {
        var nextPath := currentPath + [entry.name];
        assert IsDirectory(fs, nextPath);
        assert |nextPath| <= Depth(fs);
        var nextRoutePath := JoinRelative(routePath, NormalizeRouteSegment(entry.name));
        ghost var pg1, ly1 := pages, layouts;
        ScanPagesRecursively(fs, nextPath, nextRoutePath);
        GrownTrans(pg0, pg1, pages);
        GrownTrans(ly0, ly1, layouts);
        SubdirectoryStep(fs, projectType, currentPath, entries, routePath, i, pg0, pg1, pages);
      }
    }

    /** `analyzePagesDirectory`: scan each page directory of the flavour, in order, from the empty route path. */
    method AnalyzePagesDirectory(fs: FS, projectRoot: Path)
      requires Valid()
      modifies this
      ensures Valid() && projectType == old(projectType) && Grown(old(pages), pages) && Grown(old(layouts), layouts)
      ensures old(Recorded(fs)) ==> Recorded(fs)
      ensures forall i :: 0 <= i < |PagesDirs(projectType)| ==> Scanned(fs, projectType, JoinSpec(projectRoot, PagesDirs(projectType)[i]), "", pages.m)
    {
      var pagesDir := PagesDirs(projectType);
      ghost var pg0, ly0 := pages, layouts;
      ghost var recorded := Recorded(fs);
      PutGrown(pages, [], PageInfo(Content("", [], None), None, "", false));
      PutGrown(layouts, [], Content("", [], None));
      var i := 0;
      while i < |pagesDir|
        invariant 0 <= i <= |pagesDir|
        invariant Valid() && projectType == old(projectType) && Grown(pg0, pages) && Grown(ly0, layouts)
        invariant recorded ==> Recorded(fs)
        invariant forall j :: 0 <= j < i ==> Scanned(fs, projectType, JoinSpec(projectRoot, pagesDir[j]), "", pages.m)
      {
        var fullPath := JoinSpec(projectRoot, pagesDir[i]);
        ghost var pg1, ly1 := pages, layouts;
        ScanPagesRecursively(fs, fullPath, "");
        GrownTrans(pg0, pg1, pages);
        GrownTrans(ly0, ly1, layouts);
        PagesDirStep(fs, projectType, projectRoot, i, pg1, pages);
        i := i + 1;
      }
    }

    /** `createFileNode`: the node of a layout or page file. */
    method CreateFileNode(fs: FS, filePath: Path, content: Content, kind: string) returns (n: GraphNode)
      ensures n == FileNode(fs, filePath, content, kind, projectType)
    {
      var root := FindProjectRoot(fs, filePath);
      n := GraphNode(Str(PathString(filePath)), Basename(filePath), kind, Some(content.text), FileGroup(kind), FileRadius(kind),
        projectType, Some(PathString(root)));
    }

    /**
     * `processFileDependencies`: every dependency not yet processed that can
     * be read gets a component node, an `imports` link from the file that
     * found it, and its own dependencies followed; unreadable ones are skipped.
     */
    method ProcessFileDependencies(fs: FS, ctx: Context, deps: seq<Path>, sourcePath: Path, ghost app: GraphNode, ghost layoutIds: set<NodeId>)
      requires Inv(ctx, app, layoutIds) && Str(PathString(sourcePath)) in Ids(ctx.nodes)
      modifies ctx
      ensures Inv(ctx, app, layoutIds) && Grows(ctx, old(ctx.nodes), old(ctx.links), old(ctx.processed))
      ensures forall d :: d in deps && IsFile(fs, d) ==> PathString(d) in ctx.processed
      ensures ComponentsFrom(ctx.nodes, |old(ctx.nodes)|)
      decreases PathStrings(fs) - ctx.processed, 1
    {
      ghost var n0, l0, p0 := ctx.nodes, ctx.links, ctx.processed;
      var i := 0;
      while i < |deps|
        invariant 0 <= i <= |deps|
        invariant Inv(ctx, app, layoutIds) && Grows(ctx, n0, l0, p0) && Str(PathString(sourcePath)) in Ids(ctx.nodes)
        invariant ComponentsFrom(ctx.nodes, |n0|)
        invariant PathStrings(fs) - ctx.processed <= PathStrings(fs) - p0
        invariant forall j :: 0 <= j < i && IsFile(fs, deps[j]) ==> PathString(deps[j]) in ctx.processed
      {
        ghost var n1, l1, p1 := ctx.nodes, ctx.links, ctx.processed;
        ProcessDependency(fs, ctx, deps[i], sourcePath, app, layoutIds);
        GrowsTrans(ctx, n0, l0, p0, n1, l1, p1);
        ComponentsTrans(n1, ctx.nodes, |n0|);
        i := i + 1;
      }
    }

    /** One dependency of `processFileDependencies`'s loop. */
    method ProcessDependency(fs: FS, ctx: Context, dep: Path, sourcePath: Path, ghost app: GraphNode, ghost layoutIds: set<NodeId>)
      requires Inv(ctx, app, layoutIds) && Str(PathString(sourcePath)) in Ids(ctx.nodes)
      modifies ctx
      ensures Inv(ctx, app, layoutIds) && Grows(ctx, old(ctx.nodes), old(ctx.links), old(ctx.processed))
      ensures Str(PathString(sourcePath)) in Ids(ctx.nodes)
      ensures IsFile(fs, dep) ==> PathString(dep) in ctx.processed
      ensures PathString(dep) in old(ctx.processed) || !IsFile(fs, dep) ==>
        ctx.nodes == old(ctx.nodes) && ctx.links == old(ctx.links) && ctx.processed == old(ctx.processed)
      ensures PathString(dep) !in old(ctx.processed) && IsFile(fs, dep) ==>
        |ctx.nodes| > |old(ctx.nodes)| && ctx.nodes[|old(ctx.nodes)|] == DependencyNode(dep, fs[dep].content, projectType) &&
        |ctx.links| > |old(ctx.links)| && ctx.links[|old(ctx.links)|] == GraphLink(Str(PathString(sourcePath)), Str(PathString(dep)), 1, Some("imports"))
      ensures ComponentsFrom(ctx.nodes, |old(ctx.nodes)|)
      decreases PathStrings(fs) - ctx.processed, 0
    {
      var depId := PathString(dep);
      if depId !in ctx.processed {
        match ReadFile(fs, dep)
        case Err(_) =>
        case Ok(content) =>
          ghost var n0, l0, p0 := ctx.nodes, ctx.links, ctx.processed;
          var depNode := GraphNode(Str(depId), Basename(dep), "component", Some(content.text), 3, 10.0, projectType, None);
          var link := GraphLink(Str(PathString(sourcePath)), Str(depId), 1, Some("imports"));
          Rooted(dep);
          AddStep(ctx.nodes, ctx.links, ctx.processed, app, layoutIds, depId, depNode, link);
          ctx.MarkProcessed(depId);
          ctx.AddNode(depNode);
          ctx.AddLink(link);
          assert depId in PathStrings(fs);
          ghost var n1, l1, p1 := ctx.nodes, ctx.links, ctx.processed;
          var nestedDeps := FindComponentDependencies(fs, content, dep);
          ProcessFileDependencies(fs, ctx, nestedDeps, dep, app, layoutIds);
          assert n1[..|n0|] == n0 && l1[..|l0|] == l0;
          GrowsTrans(ctx, n0, l0, p0, n1, l1, p1);
          assert ctx.nodes[|n0|] == ctx.nodes[..|n1|][|n0|];
          assert ctx.links[|l0|] == ctx.links[..|l1|][|l0|];
          ComponentsTrans(n1, ctx.nodes, |n0|);
          KeptId(ctx, n0, Str(PathString(sourcePath)));
      }
    }

    /**
     * One entry of the layout or page loop: unless already processed, mark
     * it, push its node and its structural link, and follow its components.
     */
    method AddEntry(fs: FS, ctx: Context, filePath: Path, content: Content, kind: string, target: NodeId, value: int, linkKind: string,
                    ghost app: GraphNode, ghost layoutIds: set<NodeId>)
      requires Inv(ctx, app, layoutIds) && target in Ids(ctx.nodes) && !Downward(Some(linkKind))
      requires Structural(GraphLink(Str(PathString(filePath)), target, value, Some(linkKind)), FileNode(fs, filePath, content, kind, projectType), app.id, layoutIds)
      modifies ctx
      ensures Inv(ctx, app, layoutIds) && Grows(ctx, old(ctx.nodes), old(ctx.links), old(ctx.processed))
      ensures PathString(filePath) in ctx.processed
      ensures PathString(filePath) in old(ctx.processed) ==>
        ctx.nodes == old(ctx.nodes) && ctx.links == old(ctx.links) && ctx.processed == old(ctx.processed)
      ensures PathString(filePath) !in old(ctx.processed) ==>
        |ctx.nodes| > |old(ctx.nodes)| && ctx.nodes[|old(ctx.nodes)|] == FileNode(fs, filePath, content, kind, projectType) &&
        |ctx.links| > |old(ctx.links)| && ctx.links[|old(ctx.links)|] == GraphLink(Str(PathString(filePath)), target, value, Some(linkKind)) &&
        ComponentsFrom(ctx.nodes, |old(ctx.nodes)| + 1)
    {
      var s := PathString(filePath);
      if s !in ctx.processed {
        ghost var n0, l0, p0 := ctx.nodes, ctx.links, ctx.processed;
        PushEntry(fs, ctx, filePath, content, kind, target, value, linkKind, app, layoutIds);
        ghost var n1, l1, p1 := ctx.nodes, ctx.links, ctx.processed;
        var deps := FindComponentDependencies(fs, content, filePath);
        ProcessFileDependencies(fs, ctx, deps, filePath, app, layoutIds);
        assert n1[..|n0|] == n0 && l1[..|l0|] == l0;
        GrowsTrans(ctx, n0, l0, p0, n1, l1, p1);
        assert ctx.nodes[|n0|] == ctx.nodes[..|n1|][|n0|];
        assert ctx.links[|l0|] == ctx.links[..|l1|][|l0|];
      }
    }

    /** The node and the structural link of an entry not yet processed. */
    method PushEntry(fs: FS, ctx: Context, filePath: Path, content: Content, kind: string, target: NodeId, value: int, linkKind: string,
                     ghost app: GraphNode, ghost layoutIds: set<NodeId>)
      requires Inv(ctx, app, layoutIds) && target in Ids(ctx.nodes) && PathString(filePath) !in ctx.processed
      requires Structural(GraphLink(Str(PathString(filePath)), target, value, Some(linkKind)), FileNode(fs, filePath, content, kind, projectType), app.id, layoutIds)
      modifies ctx
      ensures Inv(ctx, app, layoutIds)
      ensures ctx.nodes == old(ctx.nodes) + [FileNode(fs, filePath, content, kind, projectType)]
      ensures ctx.links == old(ctx.links) + [GraphLink(Str(PathString(filePath)), target, value, Some(linkKind))]
      ensures ctx.processed == old(ctx.processed) + {PathString(filePath)}
    {
      var s := PathString(filePath);
      var n := CreateFileNode(fs, filePath, content, kind);
      var l := GraphLink(Str(s), target, value, Some(linkKind));
      Rooted(filePath);
      AddStep(ctx.nodes, ctx.links, ctx.processed, app, layoutIds, s, n, l);
      ctx.MarkProcessed(s);
      ctx.AddNode(n);
      ctx.AddLink(l);
    }

    /** The layout loop of `analyzeReactProject`: every recorded layout gets a node. */
    method EmitLayouts(fs: FS, ctx: Context, appNode: GraphNode, ghost layoutIds: set<NodeId>)
      requires layouts.Valid() && Inv(ctx, appNode, layoutIds)
      modifies ctx
      ensures Inv(ctx, appNode, layoutIds) && Grows(ctx, old(ctx.nodes), old(ctx.links), old(ctx.processed))
      ensures forall j :: 0 <= j < |layouts.keys| ==> Str(PathString(layouts.keys[j])) in Ids(ctx.nodes)
      ensures NoPagesFrom(ctx.nodes, |old(ctx.nodes)|)
    {
      ghost var n0, l0, p0 := ctx.nodes, ctx.links, ctx.processed;
      var i := 0;
      while i < |layouts.keys|
        invariant 0 <= i <= |layouts.keys|
        invariant Inv(ctx, appNode, layoutIds) && Grows(ctx, n0, l0, p0)
        invariant forall j :: 0 <= j < i ==> Str(PathString(layouts.keys[j])) in Ids(ctx.nodes)
        invariant NoPagesFrom(ctx.nodes, |n0|)
      {
        var layoutPath := layouts.keys[i];
        assert layoutPath in layouts.m;
        ghost var n1, l1, p1 := ctx.nodes, ctx.links, ctx.processed;
        EmitLayout(fs, ctx, appNode, layoutIds, layoutPath);
        GrowsTrans(ctx, n0, l0, p0, n1, l1, p1);
        NoPagesStep(n1, ctx.nodes, |n0|);
        IdsKept(n1, ctx.nodes);
        i := i + 1;
      }
    }

    /** One pass of the layout loop: a layout not yet processed gets its node, its `layout-structure` link and then its components' nodes. */
    method EmitLayout(fs: FS, ctx: Context, appNode: GraphNode, ghost layoutIds: set<NodeId>, layoutPath: Path)
      requires layoutPath in layouts.m && Inv(ctx, appNode, layoutIds)
      modifies ctx
      ensures Inv(ctx, appNode, layoutIds) && Grows(ctx, old(ctx.nodes), old(ctx.links), old(ctx.processed))
      ensures Str(PathString(layoutPath)) in Ids(ctx.nodes)
      ensures |ctx.nodes| > |old(ctx.nodes)| ==> ctx.nodes[|old(ctx.nodes)|].kind == "layout" && ComponentsFrom(ctx.nodes, |old(ctx.nodes)| + 1)
    {
      KeptApp(ctx, appNode, layoutIds);
      UpwardKinds();
      AddEntry(fs, ctx, layoutPath, layouts.m[layoutPath], "layout", appNode.id, 2, "layout-structure", appNode, layoutIds);
    }

    /**
     * The page loop of `analyzeReactProject`: every recorded page gets a
     * node, and every page node is linked to its own layout when that is
     * recorded, else to the application.
     */
    method EmitPages(fs: FS, ctx: Context, appNode: GraphNode, ghost layoutIds: set<NodeId>)
      requires pages.Valid() && layouts.Valid() && layoutIds == LayoutIds(layouts) && Inv(ctx, appNode, layoutIds)
      requires forall j :: 0 <= j < |layouts.keys| ==> Str(PathString(layouts.keys[j])) in Ids(ctx.nodes)
      requires NoPagesFrom(ctx.nodes, 0)
      modifies ctx
      ensures Inv(ctx, appNode, layoutIds) && Grows(ctx, old(ctx.nodes), old(ctx.links), old(ctx.processed))
      ensures forall j :: 0 <= j < |layouts.keys| ==> Str(PathString(layouts.keys[j])) in Ids(ctx.nodes)
      ensures forall j :: 0 <= j < |pages.keys| ==> Str(PathString(pages.keys[j])) in Ids(ctx.nodes)
      ensures PagesLinked(ctx.nodes, ctx.links, pages, layouts, appNode.id)
    {
      ghost var n0, l0, p0 := ctx.nodes, ctx.links, ctx.processed;
      var i := 0;
      while i < |pages.keys|
        invariant 0 <= i <= |pages.keys|
        invariant Inv(ctx, appNode, layoutIds) && Grows(ctx, n0, l0, p0)
        invariant forall j :: 0 <= j < |layouts.keys| ==> Str(PathString(layouts.keys[j])) in Ids(ctx.nodes)
        invariant forall j :: 0 <= j < i ==> Str(PathString(pages.keys[j])) in Ids(ctx.nodes)
        invariant PagesLinked(ctx.nodes, ctx.links, pages, layouts, appNode.id)
      {
        var pagePath := pages.keys[i];
        assert pagePath in pages.m;
        ghost var n1, l1, p1 := ctx.nodes, ctx.links, ctx.processed;
        EmitPage(fs, ctx, pagePath, pages.m[pagePath], appNode, layoutIds);
        GrowsTrans(ctx, n0, l0, p0, n1, l1, p1);
        IdsKept(n1, ctx.nodes);
        if PathString(pagePath) !in p1 {
          PagesLinkedStep(n1, l1, ctx.nodes, ctx.links, pages, layouts, appNode.id, pagePath);
        } else {
          assert ctx.nodes == n1 && ctx.links == l1;
        }
        i := i + 1;
      }
    }

    /** One page of the page loop: its structural link goes to its layout when that is recorded, else to the application. */
    method EmitPage(fs: FS, ctx: Context, pagePath: Path, pageInfo: PageInfo, appNode: GraphNode, ghost layoutIds: set<NodeId>)
      requires layouts.Valid() && layoutIds == LayoutIds(layouts) && Inv(ctx, appNode, layoutIds)
      requires forall j :: 0 <= j < |layouts.keys| ==> Str(PathString(layouts.keys[j])) in Ids(ctx.nodes)
      modifies ctx
      ensures Inv(ctx, appNode, layoutIds) && Grows(ctx, old(ctx.nodes), old(ctx.links), old(ctx.processed))
      ensures Str(PathString(pagePath)) in Ids(ctx.nodes)
      ensures PathString(pagePath) in old(ctx.processed) ==> ctx.nodes == old(ctx.nodes) && ctx.links == old(ctx.links)
      ensures PathString(pagePath) !in old(ctx.processed) ==>
        |ctx.nodes| > |old(ctx.nodes)| && ctx.nodes[|old(ctx.nodes)|] == FileNode(fs, pagePath, pageInfo.content, "page", projectType) &&
        |ctx.links| > |old(ctx.links)| && ctx.links[|old(ctx.links)|] == PageLink(pagePath, pageInfo, layouts, appNode.id) &&
        ComponentsFrom(ctx.nodes, |old(ctx.nodes)| + 1)
    {
      KeptApp(ctx, appNode, layoutIds);
      UpwardKinds();
      if pageInfo.layout.Some? && pageInfo.layout.value in layouts.m {
        var layoutPath := pageInfo.layout.value;
        assert Str(PathString(layoutPath)) in layoutIds;
        var j :| 0 <= j < |layouts.keys| && layouts.keys[j] == layoutPath;
        AddEntry(fs, ctx, pagePath, pageInfo.content, "page", Str(PathString(layoutPath)), 2, "uses-layout", appNode, layoutIds);
      } else {
        AddEntry(fs, ctx, pagePath, pageInfo.content, "page", appNode.id, 1, "route", appNode, layoutIds);
      }
    }

    /**
     * `analyzeReactProject`: detect the flavour (none: the empty graph),
     * scan the page directories, then emit the application node, every
     * recorded layout hanging from it, and every recorded page hanging from
     * its layout or from the application, each followed by its components.
     */
    method AnalyzeReactProject(fs: FS, projectRoot: Path) returns (r: GraphData)
      requires Valid()
      modifies this
      ensures Valid() && projectType == DetectedType(fs, projectRoot)
      ensures Grown(old(pages), pages) && Grown(old(layouts), layouts)
      ensures old(Recorded(fs)) ==> Recorded(fs)
      ensures projectType.None? ==> r == GraphData([], []) && pages == old(pages) && layouts == old(layouts)
      ensures projectType.Some? ==> Emitted(r, AppNode(projectType.value, projectRoot), pages, layouts)
      ensures Analyzed(fs, projectRoot, r, pages, layouts)
    {
      projectType := DetectedType(fs, projectRoot);
      if projectType.None? {
        PutGrown(pages, [], PageInfo(Content("", [], None), None, "", false));
        PutGrown(layouts, [], Content("", [], None));
        return GraphData([], []);
      }
      AnalyzePagesDirectory(fs, projectRoot);
      r := EmitGraph(fs, projectRoot);
    }

    /** The graph of a detected project, built from the recorded layouts and pages. */
    method EmitGraph(fs: FS, projectRoot: Path) returns (r: GraphData)
      requires Valid() && projectType.Some?
      requires projectType.value == "react-native" || projectType.value == "nextjs" || projectType.value == "react"
      ensures Emitted(r, AppNode(projectType.value, projectRoot), pages, layouts)
    {
      var appNode := AppNode(projectType.value, projectRoot);
      AppIdNotPath(projectType.value, projectRoot);
      var ctx := new Context(appNode);
      ghost var layoutIds := LayoutIds(layouts);
      EmitLayouts(fs, ctx, appNode, layoutIds);
      EmitPages(fs, ctx, appNode, layoutIds);
      TreeClosed(ctx.nodes, ctx.links);
      r := ctx.Data();
      forall k | k in layouts.m
        ensures Str(PathString(k)) in Ids(r.nodes)
      {
        var j :| 0 <= j < |layouts.keys| && layouts.keys[j] == k;
      }
      forall k | k in pages.m
        ensures Str(PathString(k)) in Ids(r.nodes)
      {
        var j :| 0 <= j < |pages.keys| && pages.keys[j] == k;
      }
    }
  }

  /**
   * What the analysis emits for a detected project: the application node
   * first, a tree of structural links closed over the nodes, one node per
   * path, every page node linked as its recorded page says, and a node for
   * every recorded layout and page.
   */
  ghost predicate Emitted(r: GraphData, app: GraphNode, pages: OMap<Path, PageInfo>, layouts: OMap<Path, Content>) {
    |r.nodes| >= 1 && r.nodes[0] == app && Tree(r.nodes, r.links) && UniqueIds(r.nodes) && Closed(r.nodes, r.links) &&
    (forall k :: 0 <= k < |r.links| ==> Structural(r.links[k], r.nodes[k + 1], app.id, LayoutIds(layouts))) &&
    PagesLinked(r.nodes, r.links, pages, layouts, app.id) &&
    (forall k :: k in layouts.m ==> Str(PathString(k)) in Ids(r.nodes)) &&
    (forall k :: k in pages.m ==> Str(PathString(k)) in Ids(r.nodes))
  }

  /**
   * What `analyzeReactProject` answers, given the pages and layouts
   * recorded after it: the empty graph when no flavour is detected;
   * otherwise the emitted graph, and every page the scans of the flavour's
   * page directories find is recorded.
   */
  ghost predicate Analyzed(fs: FS, projectRoot: Path, g: GraphData, pages: OMap<Path, PageInfo>, layouts: OMap<Path, Content>) {
    var pt := DetectedType(fs, projectRoot);
    (pt.None? ==> g == GraphData([], [])) &&
    (pt.Some? ==>
      Emitted(g, AppNode(pt.value, projectRoot), pages, layouts) &&
      forall i :: 0 <= i < |PagesDirs(pt)| ==> Scanned(fs, pt, JoinSpec(projectRoot, PagesDirs(pt)[i]), "", pages.m))
  }

  lemma Rooted(p: Path)
    ensures StartsWith(PathString(p), "/")
  {
    assert PathString(p)[..1] == "/";
  }

  /** The application node's id is the flavour's name, never a path. */
  lemma AppIdNotPath(projectType: string, projectRoot: Path)
    requires projectType == "react-native" || projectType == "nextjs" || projectType == "react"
    ensures !StartsWith(AppNode(projectType, projectRoot).id.s, "/")
  {
    assert AppNode(projectType, projectRoot).id.s[0] == projectType[0];
  }

  lemma KeptApp(ctx: Context, app: GraphNode, layoutIds: set<NodeId>)
    requires Inv(ctx, app, layoutIds)
    ensures app.id in Ids(ctx.nodes)
  {
    assert ctx.nodes[0] == app;
  }

  /** Inside a child of `dir` is at least two levels inside `dir`. */
  lemma BelowChild(dir: Path, name: string, k: Path)
    requires Below(dir + [name], k)
    ensures |k| >= |dir| + 2 && k[..|dir|] == dir
  {
    assert k[..|dir|] == k[..|dir| + 1][..|dir|];
  }

  /** A recorded page: a page file, its content as read, a route, and a layout that is recorded too. */
  ghost predicate PageRecorded(fs: FS, k: Path, info: PageInfo, layouts: OMap<Path, Content>) {
    IsFile(fs, k) && PageFileName(Basename(k)) && info.content == fs[k].content &&
    StartsWith(info.route, "/") && (info.layout.Some? ==> info.layout.value in layouts.m)
  }

  /**
   * The maps hold what the filesystem holds: page and layout files with
   * their contents, and each page's layout is recorded as a layout.
   */
  ghost predicate RecordedIn(fs: FS, pages: OMap<Path, PageInfo>, layouts: OMap<Path, Content>) {
    (forall k :: k in pages.m ==> PageRecorded(fs, k, pages.m[k], layouts)) &&
    (forall k :: k in layouts.m ==> IsFile(fs, k) && Basename(k) in LayoutFiles && layouts.m[k] == fs[k].content)
  }

  /** Recording a layout file with its content keeps the maps faithful. */
  lemma LayoutPut(fs: FS, pages: OMap<Path, PageInfo>, layouts: OMap<Path, Content>, k: Path)
    requires RecordedIn(fs, pages, layouts) && layouts.Valid()
    requires IsFile(fs, k) && Basename(k) in LayoutFiles
    ensures RecordedIn(fs, pages, layouts.Put(k, fs[k].content))
  {
    var l1 := layouts.Put(k, fs[k].content);
    forall q | q in pages.m
      ensures PageRecorded(fs, q, pages.m[q], l1)
    {
      assert PageRecorded(fs, q, pages.m[q], layouts);
    }
  }

  /** Recording a page file read from the filesystem, with a recorded layout, keeps the maps faithful. */
  lemma PagePut(fs: FS, pages: OMap<Path, PageInfo>, layouts: OMap<Path, Content>, p: Path, info: PageInfo)
    requires RecordedIn(fs, pages, layouts) && pages.Valid()
    requires PageRecorded(fs, p, info, layouts)
    ensures RecordedIn(fs, pages.Put(p, info), layouts)
  {
  }
}
