/**
 * `NextjsAnalyzer`: the layout/page tree of a Next.js app router (or pages)
 * directory, and the components those files import, transitively.
 */
module NextjsAnalyzer {
  import opened Wrappers
  import opened Strings
  import opened Paths
  import opened SourceText
  import opened FileSystem
  import opened Graph
  import opened Extractors
  import Sequences

  const AppId: NodeId := Str("nextjs-root")

  function AppNode(): GraphNode {
    GraphNode(AppId, "Next.js App", "application", None, 0, 30.0, None, None)
  }

  // ---------------------------------------------------------------- routes

  /** The route filter: group folders `(x)`, private `_x`, and the names page, app, pages, src go. */
  predicate KeepPart(part: string) {
    !StartsWith(part, "(") && !StartsWith(part, "_") && part != "page" && part != "app" && part != "pages" && part != "src"
  }

  function FilterKeep(parts: seq<string>): (r: seq<string>)
    ensures forall i :: 0 <= i < |r| ==> r[i] in parts && KeepPart(r[i])
    ensures forall x :: x in parts && KeepPart(x) ==> x in r
    decreases |parts|
  {
    if parts == [] then []
    else if KeepPart(parts[0]) then [parts[0]] + FilterKeep(parts[1..])
    else FilterKeep(parts[1..])
  }

  /** `[...x]` becomes `*`, `[x]` becomes `:x`; anything else is kept. */
  function MapPart(part: string): (r: string)
    ensures '/' !in part ==> '/' !in r
    ensures part != "" ==> r != ""
  {
    if StartsWith(part, "[") && EndsWith(part, "]") then
      assert part[0] == '[' && part[|part| - 1] == ']';
      if StartsWith(part, "[...") then "*" else ":" + part[1..|part| - 1]
    else part
  }

  function MapParts(parts: seq<string>): (r: seq<string>)
    ensures |r| == |parts| && forall i :: 0 <= i < |parts| ==> r[i] == MapPart(parts[i])
    decreases |parts|
  {
    if parts == [] then [] else [MapPart(parts[0])] + MapParts(parts[1..])
  }

  /** `.filter(Boolean)` */
  function DropEmpty(parts: seq<string>): (r: seq<string>)
    ensures forall i :: 0 <= i < |r| ==> r[i] != "" && r[i] in parts
    decreases |parts|
  {
    if parts == [] then []
    else if parts[0] == "" then DropEmpty(parts[1..])
    else [parts[0]] + DropEmpty(parts[1..])
  }

  /** The route written for a page directory at relative path `rel`. */
  function RouteFromRelative(rel: string): string {
    "/" + Collapse(Join(DropEmpty(MapParts(FilterKeep(Split(rel, '/')))), "/"), '/')
  }

  /** `getRouteName(pagePath, rootDir)` */
  function RouteName(pagePath: Path, rootDir: Path): (r: string)
    ensures r == RouteFromRelative(Relative(rootDir, pagePath))
    ensures |r| > 0 && r[0] == '/' && !HasDouble(r, '/') && (r == "/" || r[|r| - 1] != '/')
  {
    RouteShape(Relative(rootDir, pagePath));
    var r := RouteFromRelative(Relative(rootDir, pagePath));
    if r == "" then "/" else r
  }

  /** Route names start with `/`, never hold `//`, and end in `/` only when they are exactly `/`. */
  lemma RouteShape(rel: string)
    ensures var r := RouteFromRelative(rel);
      |r| > 0 && r[0] == '/' && !HasDouble(r, '/') && (r == "/" || r[|r| - 1] != '/')
  {
    var parts := DropEmpty(MapParts(FilterKeep(Split(rel, '/'))));
    RouteParts(rel);
    JoinedRouteShape(parts);
  }

  /** The segments a route is joined from are non-empty and hold no `/`. */
  lemma RouteParts(rel: string)
    ensures var parts := DropEmpty(MapParts(FilterKeep(Split(rel, '/'))));
      forall i :: 0 <= i < |parts| ==> parts[i] != "" && '/' !in parts[i]
  {
    var parts := DropEmpty(MapParts(FilterKeep(Split(rel, '/'))));
    forall i | 0 <= i < |parts|
      ensures parts[i] != "" && '/' !in parts[i]
    {
      var x := parts[i];
      assert x in MapParts(FilterKeep(Split(rel, '/')));
      var k :| 0 <= k < |FilterKeep(Split(rel, '/'))| && MapParts(FilterKeep(Split(rel, '/')))[k] == x;
      var orig := FilterKeep(Split(rel, '/'))[k];
      assert orig in Split(rel, '/');
    }
  }

  lemma JoinedRouteShape(parts: seq<string>)
    requires forall i :: 0 <= i < |parts| ==> parts[i] != "" && '/' !in parts[i]
    ensures var r := "/" + Collapse(Join(parts, "/"), '/');
      |r| > 0 && r[0] == '/' && !HasDouble(r, '/') && (r == "/" || r[|r| - 1] != '/')
  {
    var j := Join(parts, "/");
    var c := Collapse(j, '/');
    var r := "/" + c;
    if parts == [] {
      assert r == "/";
    } else {
      JoinEnds(parts, '/');
      assert c[0] == j[0] && c[|c| - 1] == j[|j| - 1];
      forall i | 0 <= i < |r| - 1
        ensures !(r[i] == '/' && r[i + 1] == '/')
      {
        if i > 0 {
          assert r[i] == c[i - 1] && r[i + 1] == c[i];
        }
      }
    }
  }

  /** A page directory scanned as its own root (the pages directory) is always named `/`. */
  lemma PagesRouteIsRoot(dir: Path)
    ensures RouteName(dir, dir) == "/"
  {
    var n := CommonPrefix(dir, dir);
    assert n == |dir|;
    assert seq(|dir| - n, _ => "..") + dir[n..] == [];
    assert Relative(dir, dir) == "";
    assert "" !in seq(0, _ => "");
    assert Split("", '/') == [""];
    assert FilterKeep([""]) == [""];
    assert MapPart("") == "";
    assert MapParts([""]) == [""];
    assert DropEmpty([""]) == [];
  }

  /** A folder name the route mapping passes through unchanged when kept: clean, and not a `[x]` dynamic segment. */
  predicate Plain(seg: string) {
    CleanSegment(seg) && !(StartsWith(seg, "[") && EndsWith(seg, "]"))
  }

  lemma {:induction false} MapPlain(parts: seq<string>)
    requires forall i :: 0 <= i < |parts| ==> Plain(parts[i])
    ensures MapParts(parts) == parts
    decreases |parts|
  {
    if parts != [] {
      MapPlain(parts[1..]);
    }
  }

  lemma {:induction false} DropNonEmpty(parts: seq<string>)
    requires forall i :: 0 <= i < |parts| ==> parts[i] != ""
    ensures DropEmpty(parts) == parts
    decreases |parts|
  {
    if parts != [] {
      DropNonEmpty(parts[1..]);
    }
  }

  /**
   * The route of a directory below `root` whose folder names are plain is
   * `/` followed by the kept names joined with `/`.
   */
  lemma DescendantRoute(root: Path, segs: seq<string>)
    requires forall i :: 0 <= i < |segs| ==> Plain(segs[i])
    ensures RouteName(root + segs, root) == "/" + Join(FilterKeep(segs), "/")
  {
    var cur := root + segs;
    if segs == [] {
      assert cur == root;
      PagesRouteIsRoot(root);
    } else {
      assert cur[..|root|] == root && cur[|root|..] == segs;
      RelativeToDescendant(root, cur);
      SplitJoin(segs, '/');
      var kept := FilterKeep(segs);
      MapPlain(kept);
      DropNonEmpty(kept);
      JoinNoDouble(kept, '/');
      CollapseIdentity(Join(kept, "/"), '/');
    }
  }

  /** The directory `getRouteName` measures from, recomputed by `scanAppDirectory` at every level. */
  function RouteRoot(currentPath: Path, isAppDir: bool): Path {
    if isAppDir then Dirname(Dirname(currentPath)) else currentPath
  }

  /**
   * The route of a page directory below the app directory is measured from
   * two levels above that directory, so only its last two folder names
   * count: `src/app/a/b/c` and `src/app/x/b/c` get the same route.
   */
  lemma AppRoutesUseLastTwoFolders(projectRoot: Path, a: string, x: string, b: string, c: string)
    ensures var cur1 := projectRoot + ["src", "app", a, b, c];
      var cur2 := projectRoot + ["src", "app", x, b, c];
      RouteName(cur1, RouteRoot(cur1, true)) == RouteName(cur2, RouteRoot(cur2, true))
  {
    var cur1 := projectRoot + ["src", "app", a, b, c];
    var cur2 := projectRoot + ["src", "app", x, b, c];
    var root1 := projectRoot + ["src", "app", a];
    var root2 := projectRoot + ["src", "app", x];
    assert RouteRoot(cur1, true) == root1 by {
      assert Dirname(cur1) == projectRoot + ["src", "app", a, b];
    }
    assert RouteRoot(cur2, true) == root2 by {
      assert Dirname(cur2) == projectRoot + ["src", "app", x, b];
    }
    assert cur1[..|root1|] == root1 && cur1[|root1|..] == [b, c];
    assert cur2[..|root2|] == root2 && cur2[|root2|..] == [b, c];
    RelativeToDescendant(root1, cur1);
    RelativeToDescendant(root2, cur2);
  }

  /** Every page under the pages directory is routed `/`. */
  lemma PagesRoutesAllRoot(currentPath: Path)
    ensures RouteName(currentPath, RouteRoot(currentPath, false)) == "/"
  {
    PagesRouteIsRoot(currentPath);
  }

  /** Distinct directories below `root` whose folder names are all plain and kept get distinct routes. */
  lemma RoutesDistinct(root: Path, s1: seq<string>, s2: seq<string>)
    requires forall i :: 0 <= i < |s1| ==> Plain(s1[i]) && KeepPart(s1[i])
    requires forall i :: 0 <= i < |s2| ==> Plain(s2[i]) && KeepPart(s2[i])
    requires s1 != s2
    ensures RouteName(root + s1, root) != RouteName(root + s2, root)
  {
    DescendantRoute(root, s1);
    DescendantRoute(root, s2);
    FilterAllKept(s1);
    FilterAllKept(s2);
    var j1, j2 := Join(s1, "/"), Join(s2, "/");
    if s1 == [] {
      JoinEnds(s2, '/');
    } else if s2 == [] {
      JoinEnds(s1, '/');
    } else {
      SplitJoin(s1, '/');
      SplitJoin(s2, '/');
    }
    assert j1 != j2;
    assert ("/" + j1)[1..] == j1 && ("/" + j2)[1..] == j2;
  }

  lemma {:induction false} FilterAllKept(parts: seq<string>)
    requires forall i :: 0 <= i < |parts| ==> KeepPart(parts[i])
    ensures FilterKeep(parts) == parts
    decreases |parts|
  {
    if parts != [] {
      FilterAllKept(parts[1..]);
    }
  }

  lemma SplitExample()
    ensures Split("blog/(marketing)/[slug]", '/') == ["blog", "(marketing)", "[slug]"]
  {
    var parts := ["blog", "(marketing)", "[slug]"];
    assert '/' !in "blog" && '/' !in "(marketing)" && '/' !in "[slug]";
    Join3(parts[0], parts[1], parts[2], "/");
    assert parts == [parts[0], parts[1], parts[2]];
    assert Join(parts, "/") == "blog/(marketing)/[slug]";
    SplitJoin(parts, '/');
  }

  lemma KeepExample()
    ensures FilterKeep(["blog", "(marketing)", "[slug]"]) == ["blog", "[slug]"]
  {
    assert KeepPart("blog") by {
      assert "blog"[..1][0] == 'b';
    }
    assert !KeepPart("(marketing)");
    assert KeepPart("[slug]") by {
      assert "[slug]"[..1][0] == '[';
    }
    assert ["blog", "(marketing)", "[slug]"][1..] == ["(marketing)", "[slug]"];
    assert ["(marketing)", "[slug]"][1..] == ["[slug]"];
  }

  lemma MapExample()
    ensures MapParts(["blog", "[slug]"]) == ["blog", ":slug"]
  {
    assert MapPart("blog") == "blog" by {
      assert "blog"[..1][0] == 'b';
    }
    var p := "[slug]";
    assert p[..4][1] == 's';
    assert p[1..|p| - 1] == "slug";
    assert MapPart(p) == ":slug";
  }

  lemma JoinExample()
    ensures Collapse(Join(DropEmpty(["blog", ":slug"]), "/"), '/') == "blog/:slug"
  {
    assert DropEmpty(["blog", ":slug"]) == ["blog", ":slug"];
    var s := "blog/:slug";
    assert Join(["blog", ":slug"], "/") == s;
    forall i | 0 <= i < |s| - 1
      ensures !(s[i] == '/' && s[i + 1] == '/')
    {
    }
    CollapseIdentity(s, '/');
  }

  /** Example: group folders are dropped and dynamic segments rewritten, so 'blog/(marketing)/[slug]' becomes '/blog/:slug'. */
  lemma RouteExample()
    ensures RouteFromRelative("blog/(marketing)/[slug]") == "/blog/:slug"
  {
    var rel := "blog/(marketing)/[slug]";
    SplitExample();
    KeepExample();
    MapExample();
    JoinExample();
    var c := Collapse(Join(DropEmpty(MapParts(FilterKeep(Split(rel, '/')))), "/"), '/');
    assert c == "blog/:slug";
    LeadingSlash(c);
  }

  lemma LeadingSlash(c: string)
    requires c == "blog/:slug"
    ensures "/" + c == "/blog/:slug"
  {
  }

  // ------------------------------------------------------------- resolving

  predicate ScriptFile(name: string, base: string) {
    name == base + ".js" || name == base + ".jsx" || name == base + ".ts" || name == base + ".tsx"
  }

  /** `entries.find(e => /^base\.(jsx?|tsx?)$/.test(e.name))`: by name only, directories included. */
  function FindScript(es: seq<Dirent>, base: string): (r: Option<string>)
    ensures r.Some? ==> ScriptFile(r.value, base) && exists i :: 0 <= i < |es| && es[i].name == r.value && forall j :: 0 <= j < i ==> !ScriptFile(es[j].name, base)
    ensures r.None? ==> forall i :: 0 <= i < |es| ==> !ScriptFile(es[i].name, base)
    decreases |es|
  {
    if es == [] then None
    else if ScriptFile(es[0].name, base) then Some(es[0].name)
    else
      var r := FindScript(es[1..], base);
      assert forall i :: 1 <= i < |es| ==> es[i] == es[1..][i - 1];
      if r.Some? then
        var i :| 0 <= i < |es[1..]| && es[1..][i].name == r.value && forall j :: 0 <= j < i ==> !ScriptFile(es[1..][j].name, base);
        assert es[i + 1].name == r.value;
        r
      else r
  }

  const Extensions: seq<string> := [".tsx", ".ts", ".jsx", ".js"]

  /** The base an import resolves to: '@/x' under the project's src, anything else beside the importer. */
  function ImportBase(fs: FS, spec: string, currentFile: Path): Path {
    var basePath := Dirname(currentFile);
    if StartsWith(spec, "@/") then
      Resolve(Resolve(NearestManifestDir(fs, basePath).GetOr(basePath), "src"), spec[2..])
    else Resolve(basePath, spec)
  }

  /** `resolveImportPath`: the first candidate that is accessible, or null. */
  method ResolveImportPath(fs: FS, spec: string, currentFile: Path) returns (r: Option<Path>)
    ensures r == FirstExisting(fs, ExtensionCandidates(ImportBase(fs, spec, currentFile), Extensions))
  {
    var basePath := Dirname(currentFile);
    var projectRoot := FindProjectRoot(fs, basePath);
    var resolved := if StartsWith(spec, "@/") then Resolve(Resolve(projectRoot, "src"), spec[2..]) else Resolve(basePath, spec);
    r := Probe(fs, ExtensionCandidates(resolved, Extensions));
  }

  // ----------------------------------------------------------- the graph

  /**
   * What the analyzer keeps true of its accumulator: the tree shape with
   * the application node first, one node per file path, and the processed
   * set holding exactly the paths that have a node, all of them files.
   */
  ghost predicate Good(fs: FS, nodes: seq<GraphNode>, links: seq<GraphLink>, processed: set<string>) {
    Tree(nodes, links) && nodes[0] == AppNode() && UniqueIds(nodes) &&
    (forall k :: 1 <= k < |nodes| ==> nodes[k].id.Str? && nodes[k].id.s in processed) &&
    (forall s :: s in processed ==> Str(s) in Ids(nodes) && StartsWith(s, "/")) &&
    processed <= PathStrings(fs)
  }

  ghost predicate Inv(fs: FS, ctx: Context)
    reads ctx
  {
    Good(fs, ctx.nodes, ctx.links, ctx.processed)
  }

  /** Adding the node of a file not yet processed, anchored to an existing node, keeps the invariant. */
  lemma AddStep(fs: FS, nodes: seq<GraphNode>, links: seq<GraphLink>, processed: set<string>, p: Path, n: GraphNode, l: GraphLink)
    requires Good(fs, nodes, links, processed)
    requires p in fs && PathString(p) !in processed
    requires n.id == Str(PathString(p)) && Introduces(l) == n.id && Anchor(l) in Ids(nodes)
    ensures Good(fs, nodes + [n], links + [l], processed + {PathString(p)})
  {
    var s := PathString(p);
    TreeExtend(nodes, links, n, l);
    IdsAppend(nodes, n);
    var ns := nodes + [n];
    forall i, j | 0 <= i < j < |ns|
      ensures ns[i].id != ns[j].id
    {
      if j == |nodes| {
        if i == 0 {
          assert ns[0].id == AppId;
          assert s[0] == '/';
          assert "nextjs-root"[0] != '/';
        } else {
          assert ns[i].id.s in processed;
        }
      }
    }
    assert s in PathStrings(fs);
  }

  /** What ProcessDependencies and ProcessImport promise about the accumulator they extend. */
  ghost predicate Extends(fs: FS, ctx: Context, n0: seq<GraphNode>, l0: seq<GraphLink>, p0: set<string>)
    reads ctx
  {
    Inv(fs, ctx) && |ctx.nodes| >= |n0| && ctx.nodes[..|n0|] == n0 &&
    |ctx.links| >= |l0| && ctx.links[..|l0|] == l0 && p0 <= ctx.processed &&
    forall k :: |l0| <= k < |ctx.links| ==> ImportLink(ctx.links[k], ctx.nodes[k + 1])
  }

  /** Every link ProcessDependencies adds is an 'imports' link of value 1 to a 'component' node. */
  predicate ImportLink(l: GraphLink, target: GraphNode) {
    l.kind == Some("imports") && l.value == 1 && target.kind == "component" && l.target == target.id
  }

  lemma ExtendsTrans(fs: FS, ctx: Context, n0: seq<GraphNode>, l0: seq<GraphLink>, p0: set<string>, n1: seq<GraphNode>, l1: seq<GraphLink>, p1: set<string>)
    requires |n1| >= |n0| && n1[..|n0|] == n0 && |l1| >= |l0| && l1[..|l0|] == l0 && p0 <= p1
    requires forall k :: |l0| <= k < |l1| ==> k + 1 < |n1| && ImportLink(l1[k], n1[k + 1])
    requires Extends(fs, ctx, n1, l1, p1)
    ensures Extends(fs, ctx, n0, l0, p0)
  {
    assert ctx.nodes[..|n0|] == ctx.nodes[..|n1|][..|n0|];
    assert ctx.links[..|l0|] == ctx.links[..|l1|][..|l0|];
    forall k | |l0| <= k < |l1|
      ensures ImportLink(ctx.links[k], ctx.nodes[k + 1])
    {
      assert ctx.links[k] == l1[k] && ctx.nodes[k + 1] == n1[k + 1];
    }
  }

  /**
   * `processDependencies`: every import that resolves to a file not yet
   * processed gets a 'component' node and an 'imports' link from the
   * importing node, and is processed in turn. A path already processed
   * gets no link, and an unreadable one is skipped.
   */
  method ProcessDependencies(fs: FS, ctx: Context, filePath: Path, content: Content, source: NodeId)
    requires Inv(fs, ctx) && source in Ids(ctx.nodes)
    modifies ctx
    ensures Extends(fs, ctx, old(ctx.nodes), old(ctx.links), old(ctx.processed))
    decreases PathStrings(fs) - ctx.processed, 1
  {
    var imports := ExtractAppImports(content.stmts);
    ghost var n0, l0, p0 := ctx.nodes, ctx.links, ctx.processed;
    var i := 0;
    while i < |imports|
      invariant 0 <= i <= |imports|
      invariant Extends(fs, ctx, n0, l0, p0) && source in Ids(ctx.nodes)
      invariant PathStrings(fs) - ctx.processed <= PathStrings(fs) - p0
    {
      ghost var n1, l1, p1 := ctx.nodes, ctx.links, ctx.processed;
      ProcessImport(fs, ctx, imports[i], filePath, source);
      ExtendsTrans(fs, ctx, n0, l0, p0, n1, l1, p1);
      i := i + 1;
    }
  }

  /** One import of ProcessDependencies's loop. */
  method ProcessImport(fs: FS, ctx: Context, spec: string, filePath: Path, source: NodeId)
    requires Inv(fs, ctx) && source in Ids(ctx.nodes)
    modifies ctx
    ensures Extends(fs, ctx, old(ctx.nodes), old(ctx.links), old(ctx.processed)) && source in Ids(ctx.nodes)
    decreases PathStrings(fs) - ctx.processed, 0
  {
    ghost var n0, l0, p0 := ctx.nodes, ctx.links, ctx.processed;
    var resolved := ResolveImportPath(fs, spec, filePath);
    if resolved.Some? && PathString(resolved.value) !in ctx.processed {
      var dep := resolved.value;
      var depId := PathString(dep);
      match ReadFile(fs, dep)
      case Err(_) =>
      case Ok(depContent) =>
        AddDependency(fs, ctx, dep, depContent, source);
        ghost var n1, l1, p1 := ctx.nodes, ctx.links, ctx.processed;
        Sequences.ConcatPrefix(n0, [n1[|n0|]]);
        Sequences.ConcatPrefix(l0, [l1[|l0|]]);
        ProcessDependencies(fs, ctx, dep, depContent, Str(depId));
        ExtendsTrans(fs, ctx, n0, l0, p0, n1, l1, p1);
        KeptId(ctx, n0, source);
    }
  }

  /** A newly resolved, readable import: its 'component' node and the 'imports' link to it. */
  method AddDependency(fs: FS, ctx: Context, dep: Path, depContent: Content, source: NodeId)
    requires Inv(fs, ctx) && source in Ids(ctx.nodes)
    requires PathString(dep) !in ctx.processed && ReadFile(fs, dep) == Ok(depContent)
    modifies ctx
    ensures Inv(fs, ctx) && Str(PathString(dep)) in Ids(ctx.nodes)
    ensures ctx.nodes == old(ctx.nodes) + [GraphNode(Str(PathString(dep)), Basename(dep), "component", Some(depContent.text), 3, 10.0, None, None)]
    ensures ctx.links == old(ctx.links) + [GraphLink(source, Str(PathString(dep)), 1, Some("imports"))]
    ensures ctx.processed == old(ctx.processed) + {PathString(dep)} && PathString(dep) in PathStrings(fs)
  {
    var depId := PathString(dep);
    var depNode := GraphNode(Str(depId), Basename(dep), "component", Some(depContent.text), 3, 10.0, None, None);
    var link := GraphLink(source, Str(depId), 1, Some("imports"));
    AddStep(fs, ctx.nodes, ctx.links, ctx.processed, dep, depNode, link);
    ctx.AddNode(depNode);
    ctx.MarkProcessed(depId);
    ctx.AddLink(link);
    assert Str(depId) in Ids(ctx.nodes);
  }

  // ------------------------------------------------------------ the walk

  /**
   * A layout or page file of the directory: read it, push its node and its
   * structural link, then follow its imports. Unread when already processed;
   * a read error ends the walk.
   */
  method AddFile(fs: FS, ctx: Context, filePath: Path, node: GraphNode, link: GraphLink) returns (err: Option<IoError>, added: bool)
    requires Inv(fs, ctx) && Anchor(link) in Ids(ctx.nodes)
    requires node.id == Str(PathString(filePath)) && Introduces(link) == node.id
    modifies ctx
    ensures Inv(fs, ctx) && Grows(ctx, old(ctx.nodes), old(ctx.links), old(ctx.processed))
    ensures err.Some? ==> !added
    ensures !added ==> ctx.nodes == old(ctx.nodes) && ctx.links == old(ctx.links)
    ensures PathString(filePath) in old(ctx.processed) ==> err.None? && !added && ctx.nodes == old(ctx.nodes) && ctx.links == old(ctx.links)
    ensures PathString(filePath) !in old(ctx.processed) ==> (err.None? <==> IsFile(fs, filePath)) && (added <==> IsFile(fs, filePath))
    ensures added ==> |ctx.nodes| > |old(ctx.nodes)| && ctx.nodes[|old(ctx.nodes)|] == node.(content := Some(fs[filePath].content.text)) && ctx.links[|old(ctx.links)|] == link
  {
    err, added := None, false;
    var id := PathString(filePath);
    if id in ctx.processed {
      return;
    }
    match ReadFile(fs, filePath)
    case Err(e) =>
      err := Some(e);
    case Ok(content) =>
      var n := node.(content := Some(content.text));
      ghost var n0, l0, p0 := ctx.nodes, ctx.links, ctx.processed;
      AddStep(fs, ctx.nodes, ctx.links, ctx.processed, filePath, n, link);
      ctx.AddNode(n);
      ctx.MarkProcessed(id);
      ctx.AddLink(link);
      ghost var n1, l1, p1 := ctx.nodes, ctx.links, ctx.processed;
      assert Str(id) in Ids(ctx.nodes);
      ProcessDependencies(fs, ctx, filePath, content, Str(id));
      assert n1[..|n0|] == n0 && l1[..|l0|] == l0;
      GrowsTrans(ctx, n0, l0, p0, n1, l1, p1);
      assert ctx.nodes[|n0|] == ctx.nodes[..|n1|][|n0|] && ctx.links[|l0|] == ctx.links[..|l1|][|l0|];
      added := true;
  }

  function LayoutNode(layoutPath: Path): GraphNode {
    GraphNode(Str(PathString(layoutPath)), "layout", "layout", None, 2, 20.0, None, None)
  }

  function PageNode(pagePath: Path, route: string): GraphNode {
    GraphNode(Str(PathString(pagePath)), route, "page", None, 1, 15.0, None, None)
  }

  /**
   * The layout file of one directory, hung from the parent by a
   * 'layout-structure' link. Returns the layout node when it was added
   * here; it parents the page and the sub-directories.
   */
  method ScanLayout(fs: FS, ctx: Context, currentPath: Path, entries: seq<Dirent>, parent: NodeId)
    returns (err: Option<IoError>, layout: Option<NodeId>)
    requires Inv(fs, ctx) && parent in Ids(ctx.nodes)
    modifies ctx
    ensures Inv(fs, ctx) && Grows(ctx, old(ctx.nodes), old(ctx.links), old(ctx.processed))
    ensures layout.Some? ==> layout.value in Ids(ctx.nodes) && err.None?
    ensures layout.Some? ==> (FindScript(entries, "layout").Some? &&
      layout.value == Str(PathString(currentPath + [FindScript(entries, "layout").value])) &&
      |ctx.links| > |old(ctx.links)| && ctx.links[|old(ctx.links)|] == GraphLink(layout.value, parent, 2, Some("layout-structure")))
    ensures FindScript(entries, "layout").None? ==> layout.None? && err.None? && ctx.nodes == old(ctx.nodes) && ctx.links == old(ctx.links)
    ensures ScriptReadable(fs, currentPath, entries, "layout") ==> err.None?
  {
    err, layout := None, None;
    ghost var n0 := ctx.nodes;
    var layoutFile := FindScript(entries, "layout");
    if layoutFile.Some? {
      var layoutPath := currentPath + [layoutFile.value];
      var lnode := LayoutNode(layoutPath);
      var link := GraphLink(lnode.id, parent, 2, Some("layout-structure"));
      var added;
      err, added := AddFile(fs, ctx, layoutPath, lnode, link);
      if added {
        layout := Some(lnode.id);
        assert ctx.nodes[|n0|].id == lnode.id;
        assert lnode.id in Ids(ctx.nodes);
      }
    }
  }

  /** The page file of one directory, named by its route and hung from `anchor` by a 'route' link. */
  method ScanPage(fs: FS, ctx: Context, currentPath: Path, entries: seq<Dirent>, anchor: NodeId, routeRoot: Path)
    returns (err: Option<IoError>, added: bool)
    requires Inv(fs, ctx) && anchor in Ids(ctx.nodes)
    modifies ctx
    ensures Inv(fs, ctx) && Grows(ctx, old(ctx.nodes), old(ctx.links), old(ctx.processed)) && anchor in Ids(ctx.nodes)
    ensures added ==> (FindScript(entries, "page").Some? && |ctx.links| > |old(ctx.links)| &&
      ctx.links[|old(ctx.links)|] == GraphLink(Str(PathString(currentPath + [FindScript(entries, "page").value])), anchor, 1, Some("route")) &&
      ctx.nodes[|old(ctx.nodes)|].name == RouteName(currentPath, routeRoot) && ctx.nodes[|old(ctx.nodes)|].kind == "page")
    ensures !added ==> ctx.nodes == old(ctx.nodes) && ctx.links == old(ctx.links)
    ensures FindScript(entries, "page").None? ==> err.None? && !added
    ensures ScriptReadable(fs, currentPath, entries, "page") ==> err.None?
  {
    err, added := None, false;
    ghost var n0 := ctx.nodes;
    var pageFile := FindScript(entries, "page");
    if pageFile.Some? {
      var pagePath := currentPath + [pageFile.value];
      var pnode := PageNode(pagePath, RouteName(currentPath, routeRoot));
      var link := GraphLink(pnode.id, anchor, 1, Some("route"));
      err, added := AddFile(fs, ctx, pagePath, pnode, link);
      KeptId(ctx, n0, anchor);
    }
  }

  /** The script `base` the listing names, if any, can be read. */
  predicate ScriptReadable(fs: FS, dir: Path, entries: seq<Dirent>, base: string) {
    FindScript(entries, base).Some? ==> IsFile(fs, dir + [FindScript(entries, base).value])
  }

  /**
   * The walk from `dir` meets no failing read: `dir` is a directory, its
   * layout and page scripts are files, and so is every walked
   * sub-directory, recursively.
   */
  ghost predicate WalkOk(fs: FS, dir: Path)
    decreases Height(fs, dir)
  {
    match ReadDir(fs, dir)
    case Err(_) => false
    case Ok(entries) =>
      ScriptReadable(fs, dir, entries, "layout") && ScriptReadable(fs, dir, entries, "page") &&
      forall i :: 0 <= i < |entries| && Walked(entries[i]) ==>
        assert |dir + [entries[i].name]| <= Depth(fs);
        WalkOk(fs, dir + [entries[i].name])
  }

  /**
   * `scanAppDirectory`: read the directory, add its layout and page, then
   * walk the sub-directories whose names do not start with `_` or `.`,
   * parented by the layout added here or else by this directory's parent.
   * A `readdir` or `readFile` failure ends the walk with that error.
   */
  method ScanAppDirectory(fs: FS, ctx: Context, currentPath: Path, parent: NodeId, isAppDir: bool) returns (err: Option<IoError>)
    requires Inv(fs, ctx) && parent in Ids(ctx.nodes)
    modifies ctx
    ensures Inv(fs, ctx) && Grows(ctx, old(ctx.nodes), old(ctx.links), old(ctx.processed))
    ensures !IsDirectory(fs, currentPath) ==> err.Some? && ctx.nodes == old(ctx.nodes) && ctx.links == old(ctx.links)
    ensures WalkOk(fs, currentPath) ==> err.None?
    decreases Height(fs, currentPath), 1
  {
    match ReadDir(fs, currentPath)
    case Err(e) =>
      return Some(e);
    case Ok(entries) =>
      ghost var n0, l0, p0 := ctx.nodes, ctx.links, ctx.processed;
      var layout;
      err, layout := ScanLayout(fs, ctx, currentPath, entries, parent);
      if err.Some? {
        return;
      }
      ghost var n1, l1, p1 := ctx.nodes, ctx.links, ctx.processed;
      KeptId(ctx, n0, parent);
      var anchor := layout.GetOr(parent);
      var pageAdded;
      err, pageAdded := ScanPage(fs, ctx, currentPath, entries, anchor, RouteRoot(currentPath, isAppDir));
      GrowsTrans(ctx, n0, l0, p0, n1, l1, p1);
      if err.Some? {
        return;
      }
      ghost var n2, l2, p2 := ctx.nodes, ctx.links, ctx.processed;
      err := WalkSubdirectories(fs, ctx, currentPath, entries, anchor, isAppDir);
      GrowsTrans(ctx, n0, l0, p0, n2, l2, p2);
  }

  predicate Walked(e: Dirent) {
    e.isDir && !StartsWith(e.name, "_") && !StartsWith(e.name, ".")
  }

  method WalkSubdirectories(fs: FS, ctx: Context, currentPath: Path, entries: seq<Dirent>, parent: NodeId, isAppDir: bool)
    returns (err: Option<IoError>)
    requires Inv(fs, ctx) && parent in Ids(ctx.nodes)
    requires forall i :: 0 <= i < |entries| ==> (entries[i].isDir ==> IsDirectory(fs, currentPath + [entries[i].name]))
    modifies ctx
    ensures Inv(fs, ctx) && Grows(ctx, old(ctx.nodes), old(ctx.links), old(ctx.processed))
    ensures (forall i :: 0 <= i < |entries| && Walked(entries[i]) ==> WalkOk(fs, currentPath + [entries[i].name])) ==> err.None?
    decreases Height(fs, currentPath), 0
  {
    err := None;
    ghost var n0, l0, p0 := ctx.nodes, ctx.links, ctx.processed;
    var i := 0;
    while i < |entries|
      invariant 0 <= i <= |entries|
      invariant Inv(fs, ctx) && Grows(ctx, n0, l0, p0) && parent in Ids(ctx.nodes)
      invariant err.None?
    {
      var entry := entries[i];
      if Walked(entry) {
        var sub := currentPath + [entry.name];
        assert |sub| <= Depth(fs);
        ghost var n1, l1, p1 := ctx.nodes, ctx.links, ctx.processed;
        err := ScanAppDirectory(fs, ctx, sub, parent, isAppDir);
        GrowsTrans(ctx, n0, l0, p0, n1, l1, p1);
        KeptId(ctx, n1, parent);
        if err.Some? {
          return;
        }
      }
      i := i + 1;
    }
  }

  /** The directory walked: `src/app` when it exists, else `src/pages`. */
  function WalkRoot(fs: FS, projectRoot: Path): Path {
    if Exists(fs, projectRoot + ["src", "app"]) then projectRoot + ["src", "app"] else projectRoot + ["src", "pages"]
  }

  /**
   * What `analyzeNextProject` answers, `None` standing for a rejection: a
   * walk root that is not a directory rejects, a walk that meets no failing
   * read succeeds, and a graph starts with the application node, is a
   * closed tree with unique ids, and names every other node by a file path.
   */
  ghost predicate Analyzed(fs: FS, projectRoot: Path, g: Option<GraphData>) {
    (!IsDirectory(fs, WalkRoot(fs, projectRoot)) ==> g.None?) &&
    (WalkOk(fs, WalkRoot(fs, projectRoot)) ==> g.Some?) &&
    (g.Some? ==>
      |g.value.nodes| >= 1 && g.value.nodes[0] == AppNode() && Tree(g.value.nodes, g.value.links) &&
      UniqueIds(g.value.nodes) && Closed(g.value.nodes, g.value.links) &&
      forall k :: 1 <= k < |g.value.nodes| ==> g.value.nodes[k].id.Str? && g.value.nodes[k].id.s in PathStrings(fs))
  }

  /**
   * `analyzeNextProject`: the app router directory `src/app` when it exists,
   * else `src/pages`, walked from the application node.
   */
  method AnalyzeNextProject(fs: FS, projectRoot: Path) returns (r: Result<GraphData, IoError>)
    ensures Analyzed(fs, projectRoot, r.ToOption())
  {
    var appDirectory := projectRoot + ["src", "app"];
    var hasAppDir := Exists(fs, appDirectory);
    var rootDir := if hasAppDir then appDirectory else projectRoot + ["src", "pages"];
    var ctx := new Context(AppNode());
    assert ctx.nodes[0].id == AppId;
    var err := ScanAppDirectory(fs, ctx, rootDir, AppId, hasAppDir);
    if err.Some? {
      return Err(err.value);
    }
    TreeClosed(ctx.nodes, ctx.links);
    return Ok(ctx.Data());
  }
}
