/**
 * `ReactNativeAnalyzer`: the screens, navigation and components folders of a
 * React Native project, every script file in them hung from the application
 * node, the components those files import, and the routes a navigator
 * declares with `<Stack.Screen>`.
 */
module ReactNativeAnalyzer {
  import opened Wrappers
  import opened Strings
  import opened Paths
  import opened SourceText
  import opened FileSystem
  import opened Graph
  import opened Sequences
  import opened Extractors
  import opened LookupTables

  const AppId: NodeId := Str("react-native-root")

  function AppNode(): GraphNode {
    GraphNode(AppId, "React Native App", "application", None, 0, 30.0, None, None)
  }

  // ------------------------------------------------------------- node looks

  const Groups: map<string, int> := map["application" := 0, "navigation" := 1, "screen" := 2, "component" := 3]
  const Radii: map<string, int> := map["application" := 30, "navigation" := 25, "screen" := 20, "component" := 15]

  /** `getNodeGroup` */
  function NodeGroup(kind: string): int {
    OrDefault(Groups, kind, 4)
  }

  /** `getNodeRadius` */
  function NodeRadius(kind: string): int {
    OrDefault(Radii, kind, 10)
  }

  /** The three folder kinds get their table entries; 'application', whose entry is 0, and every other kind get 4. */
  lemma GroupTable(kind: string)
    ensures kind == "navigation" ==> NodeGroup(kind) == 1
    ensures kind == "screen" ==> NodeGroup(kind) == 2
    ensures kind == "component" ==> NodeGroup(kind) == 3
    ensures kind !in {"navigation", "screen", "component"} ==> NodeGroup(kind) == 4
    ensures kind in Radii ==> NodeRadius(kind) == Radii[kind]
    ensures kind !in Radii ==> NodeRadius(kind) == 10
  {
  }

  /** `formatName`: one trailing 'Screen' off a screen name, one trailing 'Navigation' off a navigator name. */
  function FormatName(fileName: string, fileType: string): (r: string)
    ensures fileType == "screen" && EndsWith(fileName, "Screen") ==> r + "Screen" == fileName
    ensures fileType == "navigation" && EndsWith(fileName, "Navigation") ==> r + "Navigation" == fileName
    ensures fileType == "screen" && !EndsWith(fileName, "Screen") ==> r == fileName
    ensures fileType == "navigation" && !EndsWith(fileName, "Navigation") ==> r == fileName
    ensures fileType != "screen" && fileType != "navigation" ==> r == fileName
  {
    if fileType == "screen" then StripSuffix(fileName, "Screen")
    else if fileType == "navigation" then StripSuffix(fileName, "Navigation")
    else fileName
  }

  /** `/\.(jsx?|tsx?)$/` */
  predicate ScriptName(name: string) {
    EndsWith(name, ".js") || EndsWith(name, ".jsx") || EndsWith(name, ".ts") || EndsWith(name, ".tsx")
  }

  // ------------------------------------------------------------ the shape

  predicate IsNav(l: GraphLink) {
    l.kind == Some("navigation-route")
  }

  /** The links other than navigation routes: these make the tree; navigation routes name screens, not nodes. */
  function TreeLinks(links: seq<GraphLink>): (r: seq<GraphLink>)
    ensures |r| <= |links|
    decreases |links|
  {
    if links == [] then []
    else
      var last := links[|links| - 1];
      TreeLinks(links[..|links| - 1]) + (if IsNav(last) then [] else [last])
  }

  lemma TreeLinksAppend(links: seq<GraphLink>, l: GraphLink)
    ensures TreeLinks(links + [l]) == TreeLinks(links) + (if IsNav(l) then [] else [l])
  {
    assert (links + [l])[..|links|] == links;
  }

  /**
   * The accumulator's invariant: the non-navigation links make a tree
   * rooted at the application node, each path has at most one node, the
   * processed set is exactly the set of file nodes, every structure link
   * goes straight to the application node, and every navigation route
   * starts at a node.
   */
  ghost predicate Good(fs: FS, nodes: seq<GraphNode>, links: seq<GraphLink>, processed: set<string>) {
    Tree(nodes, TreeLinks(links)) && nodes[0] == AppNode() && UniqueIds(nodes) &&
    (forall k :: 1 <= k < |nodes| ==> nodes[k].id.Str? && nodes[k].id.s in processed) &&
    (forall s :: s in processed ==> Str(s) in Ids(nodes) && StartsWith(s, "/")) &&
    processed <= PathStrings(fs) &&
    (forall k :: 0 <= k < |links| ==> if IsNav(links[k]) then links[k].source in Ids(nodes) else links[k].kind == Some("imports") || links[k].target == AppId)
  }

  ghost predicate Inv(fs: FS, ctx: Context)
    reads ctx
  {
    Good(fs, ctx.nodes, ctx.links, ctx.processed)
  }

  /** A new file node with its one structural link, or an import link, keeps the invariant. */
  lemma AddStep(fs: FS, nodes: seq<GraphNode>, links: seq<GraphLink>, processed: set<string>, p: Path, n: GraphNode, l: GraphLink)
    requires Good(fs, nodes, links, processed)
    requires p in fs && PathString(p) !in processed
    requires n.id == Str(PathString(p)) && Introduces(l) == n.id && Anchor(l) in Ids(nodes) && !IsNav(l)
    requires l.kind == Some("imports") || l.target == AppId
    ensures Good(fs, nodes + [n], links + [l], processed + {PathString(p)})
  {
    var s := PathString(p);
    TreeLinksAppend(links, l);
    TreeExtend(nodes, TreeLinks(links), n, l);
    IdsAppend(nodes, n);
    var ns := nodes + [n];
    forall i, j | 0 <= i < j < |ns|
      ensures ns[i].id != ns[j].id
    {
      if j == |nodes| {
        if i == 0 {
          assert ns[0].id == AppId;
          assert s[0] == '/';
          assert "react-native-root"[0] != '/';
        } else {
          assert ns[i].id.s in processed;
        }
      }
    }
    assert s in PathStrings(fs);
    var ls := links + [l];
    forall k | 0 <= k < |ls|
      ensures if IsNav(ls[k]) then ls[k].source in Ids(ns) else ls[k].kind == Some("imports") || ls[k].target == AppId
    {
      if k < |links| {
        assert ls[k] == links[k];
      }
    }
  }

  /** A navigation route from an existing node keeps the invariant. */
  lemma NavStep(fs: FS, nodes: seq<GraphNode>, links: seq<GraphLink>, processed: set<string>, l: GraphLink)
    requires Good(fs, nodes, links, processed)
    requires IsNav(l) && l.source in Ids(nodes)
    ensures Good(fs, nodes, links + [l], processed)
  {
    TreeLinksAppend(links, l);
    var ls := links + [l];
    forall k | 0 <= k < |ls|
      ensures if IsNav(ls[k]) then ls[k].source in Ids(nodes) else ls[k].kind == Some("imports") || ls[k].target == AppId
    {
      if k < |links| {
        assert ls[k] == links[k];
      }
    }
  }

  // ------------------------------------------------------------ resolving

  const Extensions: seq<string> := [".tsx", ".ts", ".jsx", ".js"]

  /** '@/x' under `<projectRoot>/src`, anything else beside the importing file. */
  function ImportBase(spec: string, currentFile: Path, rootDir: Path): Path {
    if StartsWith(spec, "@/") then Resolve(Resolve(rootDir, "src"), spec[2..]) else Resolve(Dirname(currentFile), spec)
  }

  /** `resolveImportPath`: the first accessible candidate, or null. */
  method ResolveImportPath(fs: FS, spec: string, currentFile: Path, rootDir: Path) returns (r: Option<Path>)
    ensures r == FirstExisting(fs, ExtensionCandidates(ImportBase(spec, currentFile, rootDir), Extensions))
  {
    var basePath := Dirname(currentFile);
    var resolved := if StartsWith(spec, "@/") then Resolve(Resolve(rootDir, "src"), spec[2..]) else Resolve(basePath, spec);
    r := Probe(fs, ExtensionCandidates(resolved, Extensions));
  }

  // --------------------------------------------------------- dependencies

  /** Every link `processDependencies` adds is an 'imports' link of value 1. */
  ghost predicate ImportsOnly(ctx: Context, n0: seq<GraphNode>, l0: seq<GraphLink>)
    reads ctx
  {
    Grows(ctx, n0, l0, {}) &&
    (forall k :: |l0| <= k < |ctx.links| ==> ctx.links[k].kind == Some("imports") && ctx.links[k].value == 1) &&
    (forall k :: |n0| <= k < |ctx.nodes| ==> ctx.nodes[k].kind == "component" && ctx.nodes[k].group == 3 && ctx.nodes[k].radius == 15.0)
  }

  lemma ImportsOnlyTrans(ctx: Context, n0: seq<GraphNode>, l0: seq<GraphLink>, n1: seq<GraphNode>, l1: seq<GraphLink>, id: NodeId)
    requires |n1| >= |n0| && n1[..|n0|] == n0 && |l1| >= |l0| && l1[..|l0|] == l0
    requires forall k :: |l0| <= k < |l1| ==> l1[k].kind == Some("imports") && l1[k].value == 1
    requires forall k :: |n0| <= k < |n1| ==> n1[k].kind == "component" && n1[k].group == 3 && n1[k].radius == 15.0
    requires ImportsOnly(ctx, n1, l1) && id in Ids(n0)
    ensures ImportsOnly(ctx, n0, l0) && id in Ids(ctx.nodes)
  {
    GrowsTrans(ctx, n0, l0, {}, n1, l1, {});
    KeptId(ctx, n0, id);
    forall k | |l0| <= k < |l1|
      ensures ctx.links[k].kind == Some("imports") && ctx.links[k].value == 1
    {
      assert ctx.links[k] == l1[k];
    }
    forall k | |n0| <= k < |n1|
      ensures ctx.nodes[k].kind == "component" && ctx.nodes[k].group == 3 && ctx.nodes[k].radius == 15.0
    {
      assert ctx.nodes[k] == n1[k];
    }
  }

  /**
   * `processDependencies`: each import that resolves to a path not yet
   * processed gets a 'component' node (group 3, radius 15) and an 'imports'
   * link from the importing node, and is followed in turn; an unreadable one
   * is skipped. The `sourceNode`/`rootDir` guard always passes here: the
   * source is a node and a path string is never empty.
   */
  method ProcessDependencies(fs: FS, ctx: Context, filePath: Path, content: Content, source: NodeId, rootDir: Path)
    requires Inv(fs, ctx) && source in Ids(ctx.nodes)
    modifies ctx
    ensures Inv(fs, ctx) && ImportsOnly(ctx, old(ctx.nodes), old(ctx.links)) && old(ctx.processed) <= ctx.processed
    decreases PathStrings(fs) - ctx.processed, 2
  {
    var imports := ExtractAppImports(content.stmts);
    ghost var n0, l0, p0 := ctx.nodes, ctx.links, ctx.processed;
    var i := 0;
    while i < |imports|
      invariant 0 <= i <= |imports|
      invariant Inv(fs, ctx) && ImportsOnly(ctx, n0, l0) && p0 <= ctx.processed && source in Ids(ctx.nodes)
    {
      ghost var n1, l1 := ctx.nodes, ctx.links;
      ProcessImport(fs, ctx, imports[i], filePath, source, rootDir);
      ImportsOnlyTrans(ctx, n0, l0, n1, l1, source);
      i := i + 1;
    }
  }

  /** One import of ProcessDependencies's loop. */
  method ProcessImport(fs: FS, ctx: Context, spec: string, filePath: Path, source: NodeId, rootDir: Path)
    requires Inv(fs, ctx) && source in Ids(ctx.nodes)
    modifies ctx
    ensures Inv(fs, ctx) && ImportsOnly(ctx, old(ctx.nodes), old(ctx.links)) && old(ctx.processed) <= ctx.processed
    ensures source in Ids(ctx.nodes)
    decreases PathStrings(fs) - ctx.processed, 1
  {
    var resolved := ResolveImportPath(fs, spec, filePath, rootDir);
    if resolved.Some? && PathString(resolved.value) !in ctx.processed {
      var dep := resolved.value;
      match ReadFile(fs, dep)
      case Err(_) =>
      case Ok(depContent) =>
        FollowDependency(fs, ctx, dep, depContent, source, rootDir);
    }
  }

  /** A readable, unprocessed import: its node and link, then its own imports. */
  method FollowDependency(fs: FS, ctx: Context, dep: Path, depContent: Content, source: NodeId, rootDir: Path)
    requires Inv(fs, ctx) && source in Ids(ctx.nodes)
    requires PathString(dep) !in ctx.processed && ReadFile(fs, dep) == Ok(depContent)
    modifies ctx
    ensures Inv(fs, ctx) && ImportsOnly(ctx, old(ctx.nodes), old(ctx.links)) && old(ctx.processed) <= ctx.processed
    ensures source in Ids(ctx.nodes)
    decreases PathStrings(fs) - ctx.processed, 0
  {
    ghost var n0, l0 := ctx.nodes, ctx.links;
    AddDependency(fs, ctx, dep, depContent, source);
    ghost var n1, l1 := ctx.nodes, ctx.links;
    Sequences.ConcatPrefix(n0, [n1[|n0|]]);
    Sequences.ConcatPrefix(l0, [l1[|l0|]]);
    ProcessDependencies(fs, ctx, dep, depContent, Str(PathString(dep)), rootDir);
    ImportsOnlyTrans(ctx, n0, l0, n1, l1, source);
  }

  /** A newly resolved, readable import: its 'component' node and the 'imports' link to it. */
  method AddDependency(fs: FS, ctx: Context, dep: Path, depContent: Content, source: NodeId)
    requires Inv(fs, ctx) && source in Ids(ctx.nodes)
    requires PathString(dep) !in ctx.processed && ReadFile(fs, dep) == Ok(depContent)
    modifies ctx
    ensures Inv(fs, ctx) && source in Ids(ctx.nodes) && Str(PathString(dep)) in Ids(ctx.nodes)
    ensures ctx.nodes == old(ctx.nodes) + [GraphNode(Str(PathString(dep)), Basename(dep), "component", Some(depContent.text), 3, 15.0, None, None)]
    ensures ctx.links == old(ctx.links) + [GraphLink(source, Str(PathString(dep)), 1, Some("imports"))]
    ensures ctx.processed == old(ctx.processed) + {PathString(dep)} && PathString(dep) in PathStrings(fs)
  {
    var depId := PathString(dep);
    var depNode := GraphNode(Str(depId), Basename(dep), "component", Some(depContent.text), 3, 15.0, None, None);
    var link := GraphLink(source, Str(depId), 1, Some("imports"));
    AddStep(fs, ctx.nodes, ctx.links, ctx.processed, dep, depNode, link);
    ctx.AddNode(depNode);
    ctx.MarkProcessed(depId);
    ctx.AddLink(link);
  }

  // ----------------------------------------------------------- navigation

  /** The route links a navigator's `<Stack.Screen>` declarations produce, in order. */
  function NavLinks(navId: NodeId, names: seq<string>): (r: seq<GraphLink>)
    ensures |r| == |names|
    ensures forall i :: 0 <= i < |names| ==> r[i] == GraphLink(navId, Str(names[i]), 1, Some("navigation-route"))
  {
    seq(|names|, i requires 0 <= i < |names| => GraphLink(navId, Str(names[i]), 1, Some("navigation-route")))
  }

  /**
   * `analyzeNavigation`: one 'navigation-route' link per `<Stack.Screen>`
   * match, from the navigator to the screen's name. No node is added, so
   * the target is a route name rather than a node id.
   */
  method AnalyzeNavigation(fs: FS, ctx: Context, content: Content, navId: NodeId)
    requires Inv(fs, ctx) && navId in Ids(ctx.nodes)
    modifies ctx
    ensures Inv(fs, ctx)
    ensures ctx.links == old(ctx.links) + NavLinks(navId, MatchAll(StackScreenName, content.stmts))
    ensures ctx.nodes == old(ctx.nodes) && ctx.processed == old(ctx.processed)
  {
    var names := MatchAll(StackScreenName, content.stmts);
    ghost var l0 := ctx.links;
    var i := 0;
    while i < |names|
      invariant 0 <= i <= |names|
      invariant ctx.nodes == old(ctx.nodes) && ctx.processed == old(ctx.processed)
      invariant ctx.links == l0 + NavLinks(navId, names[..i])
    {
      var link := GraphLink(navId, Str(names[i]), 1, Some("navigation-route"));
      ctx.AddLink(link);
      NavLinksSnoc(navId, names, i);
      i := i + 1;
    }
    assert names[..i] == names;
    NavLinksGood(fs, ctx.nodes, l0, ctx.processed, navId, names);
  }

  /** One more declaration adds its route at the end. */
  lemma NavLinksSnoc(navId: NodeId, names: seq<string>, i: nat)
    requires i < |names|
    ensures NavLinks(navId, names[..i + 1]) == NavLinks(navId, names[..i]) + [GraphLink(navId, Str(names[i]), 1, Some("navigation-route"))]
  {
  }

  /** The routes of a navigator that is a node keep the invariant. */
  lemma {:induction false} NavLinksGood(fs: FS, nodes: seq<GraphNode>, links: seq<GraphLink>, processed: set<string>, navId: NodeId, names: seq<string>)
    requires Good(fs, nodes, links, processed) && navId in Ids(nodes)
    ensures Good(fs, nodes, links + NavLinks(navId, names), processed)
    decreases |names|
  {
    if names != [] {
      var link := GraphLink(navId, Str(names[0]), 1, Some("navigation-route"));
      NavStep(fs, nodes, links, processed, link);
      NavLinksGood(fs, nodes, links + [link], processed, navId, names[1..]);
      assert links + [link] + NavLinks(navId, names[1..]) == links + NavLinks(navId, names);
    } else {
      assert links + NavLinks(navId, names) == links;
    }
  }

  // -------------------------------------------------------------- the scan

  /**
   * One script file of a scanned folder: unless already processed, read it,
   * push its node and a '<type>-structure' link (value 1) to the application
   * node, follow its imports, and for a navigator add its routes.
   */
  method ScanFile(fs: FS, ctx: Context, filePath: Path, fileType: string, rootDir: Path) returns (err: Option<IoError>)
    requires Inv(fs, ctx)
    modifies ctx
    ensures Inv(fs, ctx) && Grows(ctx, old(ctx.nodes), old(ctx.links), old(ctx.processed))
    ensures PathString(filePath) in old(ctx.processed) ==> err.None? && ctx.nodes == old(ctx.nodes) && ctx.links == old(ctx.links)
    ensures PathString(filePath) !in old(ctx.processed) ==> (err.None? <==> IsFile(fs, filePath))
    ensures PathString(filePath) !in old(ctx.processed) && IsFile(fs, filePath) ==>
      |ctx.nodes| > |old(ctx.nodes)| && |ctx.links| > |old(ctx.links)| &&
      ctx.nodes[|old(ctx.nodes)|] == FileNode(filePath, fileType, fs[filePath].content.text) &&
      ctx.links[|old(ctx.links)|] == GraphLink(Str(PathString(filePath)), AppId, 1, Some(fileType + "-structure"))
  {
    err := None;
    var id := PathString(filePath);
    if id in ctx.processed {
      return;
    }
    match ReadFile(fs, filePath)
    case Err(e) =>
      err := Some(e);
    case Ok(content) =>
      ScanNewFile(fs, ctx, filePath, content, fileType, rootDir);
  }

  /** A file read for the first time: its node and structure link, then its imports and routes. */
  method ScanNewFile(fs: FS, ctx: Context, filePath: Path, content: Content, fileType: string, rootDir: Path)
    requires Inv(fs, ctx) && PathString(filePath) !in ctx.processed && IsFile(fs, filePath) && fs[filePath].content == content
    modifies ctx
    ensures Inv(fs, ctx) && Grows(ctx, old(ctx.nodes), old(ctx.links), old(ctx.processed))
    ensures |ctx.nodes| > |old(ctx.nodes)| && |ctx.links| > |old(ctx.links)|
    ensures ctx.nodes[|old(ctx.nodes)|] == FileNode(filePath, fileType, content.text)
    ensures ctx.links[|old(ctx.links)|] == GraphLink(Str(PathString(filePath)), AppId, 1, Some(fileType + "-structure"))
  {
    ghost var n0, l0, p0 := ctx.nodes, ctx.links, ctx.processed;
    var id := PathString(filePath);
    var node := FileNode(filePath, fileType, content.text);
    var link := GraphLink(node.id, AppId, 1, Some(fileType + "-structure"));
    assert ctx.nodes[0].id == AppId;
    StructureKind(fileType);
    AddStep(fs, ctx.nodes, ctx.links, ctx.processed, filePath, node, link);
    ctx.AddNode(node);
    ctx.MarkProcessed(id);
    ctx.AddLink(link);
    ghost var n1, l1, p1 := ctx.nodes, ctx.links, ctx.processed;
    assert Str(id) in Ids(ctx.nodes);
    FollowFile(fs, ctx, filePath, content, Str(id), fileType, rootDir);
    assert n1[..|n0|] == n0 && l1[..|l0|] == l0;
    GrowsTrans(ctx, n0, l0, p0, n1, l1, p1);
    PrefixIndex(ctx.nodes, n1, |n0|);
    PrefixIndex(ctx.links, l1, |l0|);
  }

  /** What follows a file's node: its imports, then, for a navigator, its routes. */
  method FollowFile(fs: FS, ctx: Context, filePath: Path, content: Content, source: NodeId, fileType: string, rootDir: Path)
    requires Inv(fs, ctx) && source in Ids(ctx.nodes)
    modifies ctx
    ensures Inv(fs, ctx) && Grows(ctx, old(ctx.nodes), old(ctx.links), old(ctx.processed))
  {
    ghost var n1, l1, p1 := ctx.nodes, ctx.links, ctx.processed;
    ProcessDependencies(fs, ctx, filePath, content, source, rootDir);
    if fileType == "navigation" {
      ghost var n2, l2, p2 := ctx.nodes, ctx.links, ctx.processed;
      KeptId(ctx, n1, source);
      AnalyzeNavigation(fs, ctx, content, source);
      assert ctx.links[..|l2|] == l2;
      GrowsTrans(ctx, n1, l1, p1, n2, l2, p2);
    }
  }

  /** The node of a scanned file: named by `formatName` of its basename without extension. */
  function FileNode(filePath: Path, fileType: string, text: string): GraphNode {
    GraphNode(Str(PathString(filePath)), FormatName(BasenameWithout(filePath, Ext(filePath)), fileType), fileType,
      Some(text), NodeGroup(fileType), NodeRadius(fileType) as real, None, None)
  }

  /**
   * `scanDirectory`: every sub-directory is scanned (before the entries
   * after it), every script file is added; a `readdir` or `readFile`
   * failure ends the scan with that error.
   */
  method ScanDirectory(fs: FS, ctx: Context, currentPath: Path, fileType: string, rootDir: Path) returns (err: Option<IoError>)
    requires Inv(fs, ctx)
    modifies ctx
    ensures Inv(fs, ctx) && Grows(ctx, old(ctx.nodes), old(ctx.links), old(ctx.processed))
    ensures !IsDirectory(fs, currentPath) ==> err.Some? && ctx.nodes == old(ctx.nodes) && ctx.links == old(ctx.links)
    ensures NoDangling(fs) && IsDirectory(fs, currentPath) ==> err.None?
    decreases Height(fs, currentPath), 1
  {
    match ReadDir(fs, currentPath)
    case Err(e) =>
      return Some(e);
    case Ok(entries) =>
      ListedEntries(fs, currentPath, entries);
      err := ScanEntries(fs, ctx, currentPath, entries, fileType, rootDir);
  }

  method ScanEntries(fs: FS, ctx: Context, currentPath: Path, entries: seq<Dirent>, fileType: string, rootDir: Path)
    returns (err: Option<IoError>)
    requires Inv(fs, ctx)
    requires forall i :: 0 <= i < |entries| ==> (entries[i].isDir <==> IsDirectory(fs, currentPath + [entries[i].name]))
    requires NoDangling(fs) ==> forall i :: 0 <= i < |entries| ==> currentPath + [entries[i].name] in fs
    modifies ctx
    ensures Inv(fs, ctx) && Grows(ctx, old(ctx.nodes), old(ctx.links), old(ctx.processed))
    ensures NoDangling(fs) ==> err.None?
    decreases Height(fs, currentPath), 0
  {
    err := None;
    ghost var n0, l0, p0 := ctx.nodes, ctx.links, ctx.processed;
    var i := 0;
    while i < |entries|
      invariant 0 <= i <= |entries|
      invariant Inv(fs, ctx) && Grows(ctx, n0, l0, p0)
      invariant NoDangling(fs) ==> err.None?
    {
      var entry := entries[i];
      var sub := currentPath + [entry.name];
      ghost var n1, l1, p1 := ctx.nodes, ctx.links, ctx.processed;
      if entry.isDir {
        assert |sub| <= Depth(fs);
        err := ScanDirectory(fs, ctx, sub, fileType, rootDir);
      } else if ScriptName(entry.name) {
        err := ScanFile(fs, ctx, sub, fileType, rootDir);
      }
      GrowsTrans(ctx, n0, l0, p0, n1, l1, p1);
      if err.Some? {
        return;
      }
      i := i + 1;
    }
  }

  /** The folders scanned, in order, with the node type of their files. */
  const Folders: seq<(string, string)> := [("screens", "screen"), ("navigation", "navigation"), ("components", "component")]

  /** The directory the folders are looked up in: `src` when it exists, else the project root. */
  function FolderRoot(fs: FS, projectRoot: Path): Path {
    if Exists(fs, projectRoot + ["src"]) then projectRoot + ["src"] else projectRoot
  }

  /** Every one of the three folders that exists is a directory. */
  predicate FoldersReadable(fs: FS, rootDir: Path) {
    forall j :: 0 <= j < |Folders| ==> Exists(fs, rootDir + [Folders[j].0]) ==> IsDirectory(fs, rootDir + [Folders[j].0])
  }

  /**
   * What `analyzeReactNativeProject` answers, `None` standing for a
   * rejection: an existing folder that is not a directory rejects, and with
   * no dangling link nothing else does; a graph starts with the application
   * node, its structural links form a closed tree with unique ids, every
   * navigation link leaves a node of the graph and every other link is an
   * import or hangs from the application node, and every other node is a
   * file path.
   */
  ghost predicate Analyzed(fs: FS, projectRoot: Path, g: Option<GraphData>) {
    (g.Some? ==> FoldersReadable(fs, FolderRoot(fs, projectRoot))) &&
    (NoDangling(fs) && FoldersReadable(fs, FolderRoot(fs, projectRoot)) ==> g.Some?) &&
    (g.Some? ==>
      |g.value.nodes| >= 1 && g.value.nodes[0] == AppNode() && UniqueIds(g.value.nodes) &&
      Tree(g.value.nodes, TreeLinks(g.value.links)) && Closed(g.value.nodes, TreeLinks(g.value.links)) &&
      (forall k :: 0 <= k < |g.value.links| ==>
        if IsNav(g.value.links[k]) then g.value.links[k].source in Ids(g.value.nodes)
        else g.value.links[k].kind == Some("imports") || g.value.links[k].target == AppId) &&
      forall k :: 1 <= k < |g.value.nodes| ==> g.value.nodes[k].id.Str? && g.value.nodes[k].id.s in PathStrings(fs))
  }

  /**
   * `analyzeReactNativeProject`: scan each of the three folders that exists
   * under `src` (or else under the project root). No folder nodes are made.
   */
  method AnalyzeReactNativeProject(fs: FS, projectRoot: Path) returns (r: Result<GraphData, IoError>)
    ensures Analyzed(fs, projectRoot, r.ToOption())
  {
    var ctx := new Context(AppNode());
    assert ctx.nodes[0].id == AppId;
    var srcDir := projectRoot + ["src"];
    var rootDir := if Exists(fs, srcDir) then srcDir else projectRoot;
    var i := 0;
    while i < |Folders|
      invariant 0 <= i <= |Folders|
      invariant Inv(fs, ctx)
      invariant forall j :: 0 <= j < i ==> Exists(fs, rootDir + [Folders[j].0]) ==> IsDirectory(fs, rootDir + [Folders[j].0])
    {
      var folderPath := rootDir + [Folders[i].0];
      if Exists(fs, folderPath) {
        var err := ScanDirectory(fs, ctx, folderPath, Folders[i].1, projectRoot);
        if err.Some? {
          assert rootDir == FolderRoot(fs, projectRoot);
          assert !NoDangling(fs) || !IsDirectory(fs, folderPath);
          return Err(err.value);
        }
      }
      i := i + 1;
    }
    assert rootDir == FolderRoot(fs, projectRoot);
    TreeClosed(ctx.nodes, TreeLinks(ctx.links));
    return Ok(ctx.Data());
  }
}
