/**
 * `NodejsAnalyzer`: a Node.js backend as the server entry file named by
 * package.json, one node per conventional folder (routes, controllers,
 * models, …), the script files under those folders, the local modules they
 * import, and one node per endpoint a route file declares.
 */
module NodejsAnalyzer {
  import opened Wrappers
  import opened Strings
  import opened Paths
  import opened SourceText
  import opened FileSystem
  import opened Graph
  import opened Extractors
  import opened LookupTables
  import Sequences

  const AppId: NodeId := Str("nodejs-root")

  function AppNode(): GraphNode {
    GraphNode(AppId, "Node.js Backend", "application", None, 0, 30.0, None, None)
  }

  // ------------------------------------------------------------- node looks

  const Groups: map<string, int> := map[
    "application" := 0, "server" := 1, "route" := 2, "controller" := 3,
    "model" := 4, "service" := 5, "middleware" := 6, "utility" := 7,
    "config" := 8, "endpoint" := 9, "database" := 10, "helper" := 11, "type" := 12]

  const Radii: map<string, int> := map[
    "application" := 30, "server" := 25, "route" := 20, "controller" := 18,
    "model" := 18, "service" := 15, "middleware" := 12, "utility" := 10,
    "config" := 10, "endpoint" := 8, "database" := 15, "helper" := 12, "type" := 10]

  /** `getNodeGroup` */
  function NodeGroup(kind: string): int {
    OrDefault(Groups, kind, 13)
  }

  /** `getNodeRadius` */
  function NodeRadius(kind: string): int {
    OrDefault(Radii, kind, 10)
  }

  /** 'application', whose entry is 0, falls through to 13 like an unknown kind; the other entries are kept. */
  lemma GroupTable(kind: string)
    ensures kind == "application" ==> NodeGroup(kind) == 13
    ensures kind in Groups && kind != "application" ==> NodeGroup(kind) == Groups[kind]
    ensures kind !in Groups ==> NodeGroup(kind) == 13
    ensures NodeGroup(kind) != 0
    ensures kind in Radii ==> NodeRadius(kind) == Radii[kind]
    ensures kind !in Radii ==> NodeRadius(kind) == 10
  {
  }

  /** The folder names `getFileType` looks for in a directory, in the order it tries them, with the type each gives. */
  const TypeRules: seq<(string, string)> := [
    ("routes", "route"), ("controllers", "controller"), ("models", "model"), ("services", "service"),
    ("middleware", "middleware"), ("utils", "utility"), ("config", "config"), ("prisma", "database"),
    ("types", "type"), ("helpers", "helper")]

  /** The first rule whose folder name occurs in `dir`, else 'module'. */
  function FirstRule(dir: string, rules: seq<(string, string)>): (r: string)
    ensures r == "module" || exists k :: 0 <= k < |rules| && r == rules[k].1
    ensures (forall k :: 0 <= k < |rules| ==> !Contains(dir, rules[k].0)) ==> r == "module"
    ensures forall k :: 0 <= k < |rules| && Contains(dir, rules[k].0) && (forall j :: 0 <= j < k ==> !Contains(dir, rules[j].0)) ==>
      r == rules[k].1
    decreases |rules|
  {
    if rules == [] then "module"
    else if Contains(dir, rules[0].0) then rules[0].1
    else
      var r := FirstRule(dir, rules[1..]);
      assert forall k :: 0 < k < |rules| ==> rules[k] == rules[1..][k - 1];
      r
  }

  /** `getFileType` of a file with directory string `dir`: its chain of `includes` tests is the first-rule lookup over the table. */
  function FileType(dir: string): string {
    FirstRule(dir, TypeRules)
  }

  /** A type no rule gives, other than the default, is never the answer. */
  lemma FirstRuleAvoids(dir: string, rules: seq<(string, string)>, t: string)
    requires t != "module" && forall k :: 0 <= k < |rules| ==> rules[k].1 != t
    ensures FirstRule(dir, rules) != t
  {
  }

  /** No rule gives 'server', so a dependency is never mistaken for the entry file. */
  lemma FileTypeNotServer(dir: string)
    ensures FileType(dir) != "server"
  {
    var rules := TypeRules;
    forall k | 0 <= k < |rules|
      ensures rules[k].1 != "server"
    {
    }
    FirstRuleAvoids(dir, rules, "server");
  }

  /** `/\.(js|ts)$/` */
  predicate ScriptName(name: string) {
    EndsWith(name, ".js") || EndsWith(name, ".ts")
  }

  /** `name.replace(/\.(js|ts)$/, '')` */
  function ScriptStem(name: string): (r: string)
    ensures EndsWith(name, ".js") ==> r + ".js" == name
    ensures EndsWith(name, ".ts") ==> r + ".ts" == name
    ensures !ScriptName(name) ==> r == name
  {
    if EndsWith(name, ".js") then StripSuffix(name, ".js") else StripSuffix(name, ".ts")
  }

  // ------------------------------------------------------------ the shape

  /**
   * The accumulator's invariant: the links make a tree rooted at the
   * application node, every processed path has a node, and at most the
   * second node is a 'server' node, exactly when `server` says one was
   * pushed. Ids need not be unique: endpoint ids can coincide.
   */
  ghost predicate Good(fs: FS, nodes: seq<GraphNode>, links: seq<GraphLink>, processed: set<string>, server: bool) {
    Tree(nodes, links) && nodes[0] == AppNode() &&
    (forall s :: s in processed ==> Str(s) in Ids(nodes)) && processed <= PathStrings(fs) &&
    (server ==> |nodes| >= 2) &&
    (forall k :: 1 <= k < |nodes| ==> (nodes[k].kind == "server" <==> server && k == 1))
  }

  ghost predicate Inv(fs: FS, ctx: Context, server: bool)
    reads ctx
  {
    Good(fs, ctx.nodes, ctx.links, ctx.processed, server)
  }

  /** A node that is not the server, with the link that anchors it, keeps the invariant; a file node also marks its path. */
  lemma AddStep(fs: FS, nodes: seq<GraphNode>, links: seq<GraphLink>, processed: set<string>, server: bool,
                n: GraphNode, l: GraphLink, file: Option<Path>)
    requires Good(fs, nodes, links, processed, server)
    requires Introduces(l) == n.id && Anchor(l) in Ids(nodes) && n.kind != "server"
    requires file.Some? ==> file.value in fs && n.id == Str(PathString(file.value))
    ensures Good(fs, nodes + [n], links + [l], if file.Some? then processed + {PathString(file.value)} else processed, server)
  {
    TreeExtend(nodes, links, n, l);
    IdsAppend(nodes, n);
    if file.Some? {
      assert PathString(file.value) in PathStrings(fs);
    }
    var ns := nodes + [n];
    forall k | 1 <= k < |ns|
      ensures ns[k].kind == "server" <==> server && k == 1
    {
      if k < |nodes| {
        assert ns[k] == nodes[k];
      }
    }
  }

  /** Pushes a node and the link that anchors it, marking the node's file as processed when it has one. */
  method Push(fs: FS, ctx: Context, ghost server: bool, n: GraphNode, l: GraphLink, file: Option<Path>)
    requires Inv(fs, ctx, server)
    requires Introduces(l) == n.id && Anchor(l) in Ids(ctx.nodes) && n.kind != "server"
    requires file.Some? ==> file.value in fs && n.id == Str(PathString(file.value))
    modifies ctx
    ensures Inv(fs, ctx, server)
    ensures ctx.nodes == old(ctx.nodes) + [n] && ctx.links == old(ctx.links) + [l]
    ensures ctx.processed == if file.Some? then old(ctx.processed) + {PathString(file.value)} else old(ctx.processed)
    ensures Ids(ctx.nodes) == Ids(old(ctx.nodes)) + {n.id}
  {
    AddStep(fs, ctx.nodes, ctx.links, ctx.processed, server, n, l, file);
    ctx.AddNode(n);
    if file.Some? {
      ctx.MarkProcessed(PathString(file.value));
    }
    ctx.AddLink(l);
  }

  // ------------------------------------------------------------- resolving

  const Extensions: seq<string> := [".ts", ".js", ".json"]

  /** Where `resolveImportPath` looks: beside the file for '.', under the root for '/', else under `<root>/src`. */
  function ImportBase(spec: string, currentFile: Path, rootDir: Path): Path {
    if StartsWith(spec, ".") then Resolve(Dirname(currentFile), spec)
    else if StartsWith(spec, "/") then JoinSpec(rootDir, spec)
    else JoinSpec(JoinSpec(rootDir, "src"), spec)
  }

  /** `resolveImportPath`: the first accessible of `base.ts`, `base.js`, `base.json`, then `base/index.*`; never `base` itself. */
  method ResolveImportPath(fs: FS, spec: string, currentFile: Path, rootDir: Path) returns (r: Option<Path>)
    ensures r == FirstExisting(fs, ExtensionCandidates(ImportBase(spec, currentFile, rootDir), Extensions))
    ensures r != Some(ImportBase(spec, currentFile, rootDir))
  {
    var basePath := Dirname(currentFile);
    var resolved: Path;
    if StartsWith(spec, ".") {
      resolved := Resolve(basePath, spec);
    } else if StartsWith(spec, "/") {
      resolved := JoinSpec(rootDir, spec);
    } else {
      resolved := JoinSpec(JoinSpec(rootDir, "src"), spec);
    }
    r := Probe(fs, ExtensionCandidates(resolved, Extensions));
    BareNeverTried(fs, resolved, Extensions);
  }

  // --------------------------------------------------------- dependencies

  /** The node of a dependency: typed by where it lives, named by its basename without extension. */
  function DependencyNode(dep: Path, text: string): (n: GraphNode)
    ensures n.kind != "server"
  {
    FileTypeNotServer(PathString(Dirname(dep)));
    var kind := FileType(PathString(Dirname(dep)));
    GraphNode(Str(PathString(dep)), BasenameWithout(dep, Ext(dep)), kind, Some(text), NodeGroup(kind), NodeRadius(kind) as real, None, None)
  }

  /** What ProcessDependencies promises: the accumulator grew, by 'imports' links of value 1 only. */
  ghost predicate ImportsOnly(ctx: Context, n0: seq<GraphNode>, l0: seq<GraphLink>, p0: set<string>)
    reads ctx
  {
    Grows(ctx, n0, l0, p0) &&
    forall k :: |l0| <= k < |ctx.links| ==> ctx.links[k].kind == Some("imports") && ctx.links[k].value == 1
  }

  lemma ImportsOnlyTrans(ctx: Context, n0: seq<GraphNode>, l0: seq<GraphLink>, p0: set<string>,
                         n1: seq<GraphNode>, l1: seq<GraphLink>, p1: set<string>, id: NodeId)
    requires |n1| >= |n0| && n1[..|n0|] == n0 && |l1| >= |l0| && l1[..|l0|] == l0 && p0 <= p1
    requires forall k :: |l0| <= k < |l1| ==> l1[k].kind == Some("imports") && l1[k].value == 1
    requires ImportsOnly(ctx, n1, l1, p1) && id in Ids(n0)
    ensures ImportsOnly(ctx, n0, l0, p0) && id in Ids(ctx.nodes)
  {
    GrowsTrans(ctx, n0, l0, p0, n1, l1, p1);
    KeptId(ctx, n0, id);
    forall k | |l0| <= k < |l1|
      ensures ctx.links[k].kind == Some("imports") && ctx.links[k].value == 1
    {
      assert ctx.links[k] == l1[k];
    }
  }

  /**
   * `processDependencies`: each local import that resolves to a path not yet
   * processed gets a node typed by `getFileType` and an 'imports' link from
   * the importing node, and is followed in turn; an unreadable one is
   * skipped. The `sourceNode`/`rootDir` guard always passes here.
   */
  method ProcessDependencies(fs: FS, ctx: Context, ghost server: bool, filePath: Path, content: Content, source: NodeId, rootDir: Path)
    requires Inv(fs, ctx, server) && source in Ids(ctx.nodes)
    modifies ctx
    ensures Inv(fs, ctx, server) && ImportsOnly(ctx, old(ctx.nodes), old(ctx.links), old(ctx.processed))
    decreases PathStrings(fs) - ctx.processed, 2
  {
    var imports := ExtractNodeImports(content.stmts);
    ghost var n0, l0, p0 := ctx.nodes, ctx.links, ctx.processed;
    var i := 0;
    while i < |imports|
      invariant 0 <= i <= |imports|
      invariant Inv(fs, ctx, server) && ImportsOnly(ctx, n0, l0, p0) && source in Ids(ctx.nodes)
    {
      ghost var n1, l1, p1 := ctx.nodes, ctx.links, ctx.processed;
      ProcessImport(fs, ctx, server, imports[i], filePath, source, rootDir);
      ImportsOnlyTrans(ctx, n0, l0, p0, n1, l1, p1, source);
      i := i + 1;
    }
  }

  /** One import of ProcessDependencies's loop. */
  method ProcessImport(fs: FS, ctx: Context, ghost server: bool, spec: string, filePath: Path, source: NodeId, rootDir: Path)
    requires Inv(fs, ctx, server) && source in Ids(ctx.nodes)
    modifies ctx
    ensures Inv(fs, ctx, server) && ImportsOnly(ctx, old(ctx.nodes), old(ctx.links), old(ctx.processed))
    ensures source in Ids(ctx.nodes)
    decreases PathStrings(fs) - ctx.processed, 1
  {
    var resolved := ResolveImportPath(fs, spec, filePath, rootDir);
    if resolved.Some? && PathString(resolved.value) !in ctx.processed {
      var dep := resolved.value;
      match ReadFile(fs, dep)
      case Err(_) =>
      case Ok(depContent) =>
        AddDependency(fs, ctx, server, dep, depContent, source, rootDir);
    }
  }

  /** A readable, unprocessed import: its node and 'imports' link, then its own imports. */
  method AddDependency(fs: FS, ctx: Context, ghost server: bool, dep: Path, depContent: Content, source: NodeId, rootDir: Path)
    requires Inv(fs, ctx, server) && source in Ids(ctx.nodes)
    requires ReadFile(fs, dep) == Ok(depContent) && PathString(dep) !in ctx.processed
    modifies ctx
    ensures Inv(fs, ctx, server) && ImportsOnly(ctx, old(ctx.nodes), old(ctx.links), old(ctx.processed))
    ensures source in Ids(ctx.nodes)
    decreases PathStrings(fs) - ctx.processed, 0
  {
    ghost var n0, l0, p0 := ctx.nodes, ctx.links, ctx.processed;
    assert source in Ids(n0);
    var depId := PathString(dep);
    var depNode := DependencyNode(dep, depContent.text);
    var link := GraphLink(source, Str(depId), 1, Some("imports"));
    Push(fs, ctx, server, depNode, link, Some(dep));
    ghost var n1, l1, p1 := ctx.nodes, ctx.links, ctx.processed;
    ProcessDependencies(fs, ctx, server, dep, depContent, Str(depId), rootDir);
    Sequences.ConcatPrefix(n0, [depNode]);
    Sequences.ConcatPrefix(l0, [link]);
    ImportsOnlyTrans(ctx, n0, l0, p0, n1, l1, p1, source);
  }

  // ------------------------------------------------------------- endpoints

  /** The paths `analyzeRoutes` finds: every `.get('…')` match, then `.post`, `.put`, `.delete`, `.patch`. */
  function EndpointPaths(stmts: seq<Stmt>): seq<string> {
    MatchAll(Route("get"), stmts) + MatchAll(Route("post"), stmts) + MatchAll(Route("put"), stmts) +
    MatchAll(Route("delete"), stmts) + MatchAll(Route("patch"), stmts)
  }

  /** The five verbs `analyzeRoutes` looks for. */
  predicate RouteVerb(verb: string) {
    verb == "get" || verb == "post" || verb == "put" || verb == "delete" || verb == "patch"
  }

  /** A route call with one of the five verbs on path `s`. */
  predicate DeclaresEndpoint(st: Stmt, s: string) {
    st.RouteCall? && RouteVerb(st.verb) && st.path == s
  }

  /** One verb's pattern finds exactly the non-empty quote-free paths of that verb's route calls. */
  lemma RouteMembers(verb: string, stmts: seq<Stmt>, s: string)
    ensures s in MatchAll(Route(verb), stmts) <==> QuotedBody(s) && exists i :: 0 <= i < |stmts| && stmts[i] == RouteCall(verb, s)
  {
    MatchAllMembers(Route(verb), stmts, s);
    if s in MatchAll(Route(verb), stmts) {
      var i :| 0 <= i < |stmts| && Match(Route(verb), stmts[i]) == Some(s);
      RouteMatch(verb, stmts[i]);
    }
    if QuotedBody(s) && exists i :: 0 <= i < |stmts| && stmts[i] == RouteCall(verb, s) {
      var i :| 0 <= i < |stmts| && stmts[i] == RouteCall(verb, s);
      RouteMatch(verb, stmts[i]);
    }
  }

  /** The endpoints found are exactly the non-empty quote-free paths of the route calls with one of the five verbs. */
  lemma EndpointPathsMembers(stmts: seq<Stmt>, s: string)
    ensures s in EndpointPaths(stmts) <==> QuotedBody(s) && exists i :: 0 <= i < |stmts| && DeclaresEndpoint(stmts[i], s)
  {
    RouteMembers("get", stmts, s);
    RouteMembers("post", stmts, s);
    RouteMembers("put", stmts, s);
    RouteMembers("delete", stmts, s);
    RouteMembers("patch", stmts, s);
    if QuotedBody(s) && exists i :: 0 <= i < |stmts| && DeclaresEndpoint(stmts[i], s) {
      var i :| 0 <= i < |stmts| && DeclaresEndpoint(stmts[i], s);
      assert stmts[i] == RouteCall(stmts[i].verb, s);
    }
  }

  function EndpointId(routeId: string, path: string): NodeId {
    Str(routeId + "-" + path)
  }

  function EndpointNodes(routeId: string, paths: seq<string>): (r: seq<GraphNode>)
    ensures |r| == |paths|
    ensures forall i :: 0 <= i < |paths| ==>
      r[i] == GraphNode(EndpointId(routeId, paths[i]), paths[i], "endpoint", Some("Endpoint: " + paths[i]), 9, 8.0, None, None)
  {
    seq(|paths|, i requires 0 <= i < |paths| =>
      GraphNode(EndpointId(routeId, paths[i]), paths[i], "endpoint", Some("Endpoint: " + paths[i]), 9, 8.0, None, None))
  }

  function EndpointLinks(routeId: string, paths: seq<string>): (r: seq<GraphLink>)
    ensures |r| == |paths|
    ensures forall i :: 0 <= i < |paths| ==> r[i] == GraphLink(EndpointId(routeId, paths[i]), Str(routeId), 1, Some("endpoint-definition"))
  {
    seq(|paths|, i requires 0 <= i < |paths| => GraphLink(EndpointId(routeId, paths[i]), Str(routeId), 1, Some("endpoint-definition")))
  }

  /** The endpoint node one route path gives. */
  function EndpointNode(routeId: string, path: string): GraphNode {
    GraphNode(EndpointId(routeId, path), path, "endpoint", Some("Endpoint: " + path), 9, 8.0, None, None)
  }

  /** One more path adds its node and its link at the end. */
  lemma EndpointsSnoc(routeId: string, paths: seq<string>, i: nat)
    requires i < |paths|
    ensures EndpointNodes(routeId, paths[..i + 1]) == EndpointNodes(routeId, paths[..i]) + [EndpointNode(routeId, paths[i])]
    ensures EndpointLinks(routeId, paths[..i + 1]) ==
      EndpointLinks(routeId, paths[..i]) + [GraphLink(EndpointId(routeId, paths[i]), Str(routeId), 1, Some("endpoint-definition"))]
  {
    var a, b := EndpointNodes(routeId, paths[..i + 1]), EndpointNodes(routeId, paths[..i]) + [EndpointNode(routeId, paths[i])];
    forall k | 0 <= k < |a|
      ensures a[k] == b[k]
    {
      assert paths[..i + 1][k] == paths[k];
      if k < i {
        assert paths[..i][k] == paths[k];
      }
    }
    var c, d := EndpointLinks(routeId, paths[..i + 1]), EndpointLinks(routeId, paths[..i]) + [GraphLink(EndpointId(routeId, paths[i]), Str(routeId), 1, Some("endpoint-definition"))];
    forall k | 0 <= k < |c|
      ensures c[k] == d[k]
    {
      assert paths[..i + 1][k] == paths[k];
      if k < i {
        assert paths[..i][k] == paths[k];
      }
    }
  }

  /**
   * `analyzeRoutes`: one 'endpoint' node and one 'endpoint-definition' link
   * to the route file per match, with no deduplication.
   */
  method AnalyzeRoutes(fs: FS, ctx: Context, ghost server: bool, content: Content, routeId: string)
    requires Inv(fs, ctx, server) && Str(routeId) in Ids(ctx.nodes)
    modifies ctx
    ensures Inv(fs, ctx, server)
    ensures ctx.nodes == old(ctx.nodes) + EndpointNodes(routeId, EndpointPaths(content.stmts))
    ensures ctx.links == old(ctx.links) + EndpointLinks(routeId, EndpointPaths(content.stmts))
    ensures ctx.processed == old(ctx.processed)
  {
    var paths := EndpointPaths(content.stmts);
    AddEndpoints(fs, ctx, server, routeId, paths);
  }

  /** AnalyzeRoutes's loop over the matched paths, in order. */
  method AddEndpoints(fs: FS, ctx: Context, ghost server: bool, routeId: string, paths: seq<string>)
    requires Inv(fs, ctx, server) && Str(routeId) in Ids(ctx.nodes)
    modifies ctx
    ensures Inv(fs, ctx, server)
    ensures ctx.nodes == old(ctx.nodes) + EndpointNodes(routeId, paths)
    ensures ctx.links == old(ctx.links) + EndpointLinks(routeId, paths)
    ensures ctx.processed == old(ctx.processed)
  {
    ghost var n0, l0 := ctx.nodes, ctx.links;
    var i := 0;
    while i < |paths|
      invariant 0 <= i <= |paths|
      invariant Inv(fs, ctx, server) && ctx.processed == old(ctx.processed) && Str(routeId) in Ids(ctx.nodes)
      invariant ctx.nodes == n0 + EndpointNodes(routeId, paths[..i])
      invariant ctx.links == l0 + EndpointLinks(routeId, paths[..i])
    {
      PushEndpoint(fs, ctx, server, routeId, paths[i]);
      EndpointsSnoc(routeId, paths, i);
      i := i + 1;
    }
    assert paths[..i] == paths;
  }

  /** One match of AnalyzeRoutes's loop: its endpoint node, anchored at the route file. */
  method PushEndpoint(fs: FS, ctx: Context, ghost server: bool, routeId: string, routePath: string)
    requires Inv(fs, ctx, server) && Str(routeId) in Ids(ctx.nodes)
    modifies ctx
    ensures Inv(fs, ctx, server) && ctx.processed == old(ctx.processed) && Str(routeId) in Ids(ctx.nodes)
    ensures ctx.nodes == old(ctx.nodes) + [EndpointNode(routeId, routePath)]
    ensures ctx.links == old(ctx.links) + [GraphLink(EndpointId(routeId, routePath), Str(routeId), 1, Some("endpoint-definition"))]
  {
    var endpoint := GraphNode(EndpointId(routeId, routePath), routePath, "endpoint", Some("Endpoint: " + routePath), 9, 8.0, None, None);
    var link := GraphLink(endpoint.id, Str(routeId), 1, Some("endpoint-definition"));
    Push(fs, ctx, server, endpoint, link, None);
  }

  /** A path declared under two verbs gives two endpoint nodes with the same id. */
  lemma DuplicateEndpoints(routeId: string, stmts: seq<Stmt>, p: string)
    requires p in MatchAll(Route("get"), stmts) && p in MatchAll(Route("post"), stmts)
    ensures var ns := EndpointNodes(routeId, EndpointPaths(stmts));
      exists i, j :: 0 <= i < j < |ns| && ns[i].id == ns[j].id
    ensures !UniqueIds(EndpointNodes(routeId, EndpointPaths(stmts)))
  {
    var gets := MatchAll(Route("get"), stmts);
    var posts := MatchAll(Route("post"), stmts);
    var paths := EndpointPaths(stmts);
    var i :| 0 <= i < |gets| && gets[i] == p;
    var j :| 0 <= j < |posts| && posts[j] == p;
    Sequences.FiveIndex(gets, posts, MatchAll(Route("put"), stmts), MatchAll(Route("delete"), stmts), MatchAll(Route("patch"), stmts), i, j);
    var ns := EndpointNodes(routeId, paths);
    assert ns[i].id == ns[|gets| + j].id;
  }

  // -------------------------------------------------------------- the scan

  /** The node of a scanned file: named by the file name without its `.js`/`.ts`. */
  function FileNode(filePath: Path, fileType: string, text: string): GraphNode {
    GraphNode(Str(PathString(filePath)), ScriptStem(Basename(filePath)), fileType, Some(text),
      NodeGroup(fileType), NodeRadius(fileType) as real, None, None)
  }

  /**
   * One script file: unless already processed, read it, push its node and a
   * '<type>-structure' link (value 1) to the folder node, follow its
   * imports, and for a route file add its endpoints.
   */
  method ScanFile(fs: FS, ctx: Context, ghost server: bool, filePath: Path, parent: NodeId, fileType: string, rootDir: Path)
    returns (err: Option<IoError>)
    requires Inv(fs, ctx, server) && parent in Ids(ctx.nodes) && fileType != "server"
    modifies ctx
    ensures Inv(fs, ctx, server) && Grows(ctx, old(ctx.nodes), old(ctx.links), old(ctx.processed))
    ensures PathString(filePath) in old(ctx.processed) ==> err.None? && ctx.nodes == old(ctx.nodes) && ctx.links == old(ctx.links)
    ensures PathString(filePath) !in old(ctx.processed) ==> (err.None? <==> IsFile(fs, filePath))
    ensures PathString(filePath) !in old(ctx.processed) && IsFile(fs, filePath) ==>
      |ctx.nodes| > |old(ctx.nodes)| && |ctx.links| > |old(ctx.links)| &&
      ctx.nodes[|old(ctx.nodes)|] == FileNode(filePath, fileType, fs[filePath].content.text) &&
      ctx.links[|old(ctx.links)|] == GraphLink(Str(PathString(filePath)), parent, 1, Some(fileType + "-structure"))
  {
    err := None;
    var id := PathString(filePath);
    if id in ctx.processed {
      return;
    }
    match ReadFile(fs, filePath)
    case Err(e) =>
      err := Some(e);
    case Ok(content) =>
      ScanNewFile(fs, ctx, server, filePath, content, parent, fileType, rootDir);
  }

  /** A file not yet processed, read: its node and structure link first, then what it imports and declares. */
  method ScanNewFile(fs: FS, ctx: Context, ghost server: bool, filePath: Path, content: Content, parent: NodeId, fileType: string, rootDir: Path)
    requires Inv(fs, ctx, server) && parent in Ids(ctx.nodes) && fileType != "server"
    requires PathString(filePath) !in ctx.processed && IsFile(fs, filePath) && fs[filePath].content == content
    modifies ctx
    ensures Inv(fs, ctx, server) && Grows(ctx, old(ctx.nodes), old(ctx.links), old(ctx.processed))
    ensures |ctx.nodes| > |old(ctx.nodes)| && |ctx.links| > |old(ctx.links)|
    ensures ctx.nodes[|old(ctx.nodes)|] == FileNode(filePath, fileType, content.text)
    ensures ctx.links[|old(ctx.links)|] == GraphLink(Str(PathString(filePath)), parent, 1, Some(fileType + "-structure"))
  {
    var id := PathString(filePath);
    ghost var n0, l0, p0 := ctx.nodes, ctx.links, ctx.processed;
    var node := FileNode(filePath, fileType, content.text);
    var link := GraphLink(node.id, parent, 1, Some(fileType + "-structure"));
    StructureKind(fileType);
    Push(fs, ctx, server, node, link, Some(filePath));
    ghost var n1, l1, p1 := ctx.nodes, ctx.links, ctx.processed;
    FollowFile(fs, ctx, server, filePath, content, id, fileType, rootDir);
    assert n1[..|n0|] == n0 && l1[..|l0|] == l0;
    GrowsTrans(ctx, n0, l0, p0, n1, l1, p1);
    assert ctx.nodes[|n0|] == ctx.nodes[..|n0| + 1][|n0|] == n1[|n0|];
    assert ctx.links[|l0|] == ctx.links[..|l0| + 1][|l0|] == l1[|l0|];
  }

  /** The imports of a file already pushed, then, for a route file, its endpoints. */
  method FollowFile(fs: FS, ctx: Context, ghost server: bool, filePath: Path, content: Content, id: string, fileType: string, rootDir: Path)
    requires Inv(fs, ctx, server) && Str(id) in Ids(ctx.nodes)
    modifies ctx
    ensures Inv(fs, ctx, server) && Grows(ctx, old(ctx.nodes), old(ctx.links), old(ctx.processed))
  {
    ghost var n1, l1, p1 := ctx.nodes, ctx.links, ctx.processed;
    ProcessDependencies(fs, ctx, server, filePath, content, Str(id), rootDir);
    if fileType == "route" {
      ghost var n2, l2, p2 := ctx.nodes, ctx.links, ctx.processed;
      KeptId(ctx, n1, Str(id));
      AnalyzeRoutes(fs, ctx, server, content, id);
      assert ctx.nodes[..|n2|] == n2 && ctx.links[..|l2|] == l2;
      GrowsTrans(ctx, n1, l1, p1, n2, l2, p2);
    }
  }

  /**
   * `scanDirectory`: sub-directories are scanned where they occur, `.js`
   * and `.ts` files are added; a `readdir` or `readFile` failure ends the
   * scan with that error. Below a directory only a dangling entry can fail.
   */
  method ScanDirectory(fs: FS, ctx: Context, ghost server: bool, currentPath: Path, parent: NodeId, fileType: string, rootDir: Path)
    returns (err: Option<IoError>)
    requires Inv(fs, ctx, server) && parent in Ids(ctx.nodes) && fileType != "server"
    modifies ctx
    ensures Inv(fs, ctx, server) && Grows(ctx, old(ctx.nodes), old(ctx.links), old(ctx.processed))
    ensures !IsDirectory(fs, currentPath) ==> err.Some? && ctx.nodes == old(ctx.nodes) && ctx.links == old(ctx.links)
    ensures NoDangling(fs) && IsDirectory(fs, currentPath) ==> err.None?
    decreases Height(fs, currentPath), 1
  {
    match ReadDir(fs, currentPath)
    case Err(e) =>
      return Some(e);
    case Ok(entries) =>
      ListedEntries(fs, currentPath, entries);
      err := ScanEntries(fs, ctx, server, currentPath, entries, parent, fileType, rootDir);
  }

  /** Under `NoDangling`, every entry of a listing is a path of the filesystem. */
  method ScanEntries(fs: FS, ctx: Context, ghost server: bool, currentPath: Path, entries: seq<Dirent>, parent: NodeId, fileType: string, rootDir: Path)
    returns (err: Option<IoError>)
    requires Inv(fs, ctx, server) && parent in Ids(ctx.nodes) && fileType != "server"
    requires forall i :: 0 <= i < |entries| ==> (entries[i].isDir <==> IsDirectory(fs, currentPath + [entries[i].name]))
    requires NoDangling(fs) ==> forall i :: 0 <= i < |entries| ==> currentPath + [entries[i].name] in fs
    modifies ctx
    ensures Inv(fs, ctx, server) && Grows(ctx, old(ctx.nodes), old(ctx.links), old(ctx.processed))
    ensures NoDangling(fs) ==> err.None?
    decreases Height(fs, currentPath), 0
  {
    err := None;
    ghost var n0, l0, p0 := ctx.nodes, ctx.links, ctx.processed;
    var i := 0;
    while i < |entries|
      invariant 0 <= i <= |entries|
      invariant Inv(fs, ctx, server) && Grows(ctx, n0, l0, p0) && parent in Ids(ctx.nodes)
      invariant NoDangling(fs) ==> err.None?
    {
      var entry := entries[i];
      var sub := currentPath + [entry.name];
      ghost var n1, l1, p1 := ctx.nodes, ctx.links, ctx.processed;
      if entry.isDir {
        assert |sub| <= Depth(fs);
        err := ScanDirectory(fs, ctx, server, sub, parent, fileType, rootDir);
      } else if ScriptName(entry.name) {
        err := ScanFile(fs, ctx, server, sub, parent, fileType, rootDir);
      }
      GrowsTrans(ctx, n0, l0, p0, n1, l1, p1);
      KeptId(ctx, n1, parent);
      if err.Some? {
        return;
      }
      i := i + 1;
    }
  }

  // ----------------------------------------------------------- the entry file

  /** `analyzePackageJson(...).main`: the manifest's `main`, or 'index.js' when package.json cannot be read or parsed. */
  function PackageMain(fs: FS, projectRoot: Path): (r: Option<string>)
    ensures !IsFile(fs, projectRoot + ["package.json"]) ==> r == Some("index.js")
    ensures IsFile(fs, projectRoot + ["package.json"]) && fs[projectRoot + ["package.json"]].content.manifest.None? ==> r == Some("index.js")
    ensures IsFile(fs, projectRoot + ["package.json"]) && fs[projectRoot + ["package.json"]].content.manifest.Some? ==>
      r == fs[projectRoot + ["package.json"]].content.manifest.value.main
  {
    match ReadFile(fs, projectRoot + ["package.json"])
    case Err(_) => Some("index.js")
    case Ok(c) => if c.manifest.None? then Some("index.js") else c.manifest.value.main
  }

  /** `path.join(projectRoot, 'src', path.basename(p))` */
  function SrcFallback(projectRoot: Path, p: Path): Path {
    JoinSpec(JoinSpec(projectRoot, "src"), Basename(p))
  }

  /**
   * The server entry file for `main`: `resolve(projectRoot, main)`; without
   * an extension, that path plus '.ts', else plus '.js'; a missing file falls
   * back to `src/<basename>`; `None` when even that is missing.
   */
  function MainFile(fs: FS, projectRoot: Path, main: string): (r: Option<Path>)
    ensures r.Some? ==> Exists(fs, r.value)
    ensures var p := Resolve(projectRoot, main);
      Ext(p) == "" && Exists(fs, AddSuffix(p, ".ts")) ==> r == Some(AddSuffix(p, ".ts"))
    ensures var p := Resolve(projectRoot, main);
      Ext(p) == "" && !Exists(fs, AddSuffix(p, ".ts")) && Exists(fs, AddSuffix(p, ".js")) ==> r == Some(AddSuffix(p, ".js"))
    ensures var p := Resolve(projectRoot, main);
      (Ext(p) != "" || (!Exists(fs, AddSuffix(p, ".ts")) && !Exists(fs, AddSuffix(p, ".js")))) ==>
      r == (if Exists(fs, p) then Some(p) else if Exists(fs, SrcFallback(projectRoot, p)) then Some(SrcFallback(projectRoot, p)) else None)
  {
    var p := Resolve(projectRoot, main);
    var q := if Ext(p) != "" then p
      else if Exists(fs, AddSuffix(p, ".ts")) then AddSuffix(p, ".ts")
      else if Exists(fs, AddSuffix(p, ".js")) then AddSuffix(p, ".js")
      else p;
    var m := if !Exists(fs, q) && Exists(fs, SrcFallback(projectRoot, q)) then SrcFallback(projectRoot, q) else q;
    if Exists(fs, m) then Some(m) else None
  }

  /** The entry-file lookup of `analyzeNodeProject`, step by step. */
  method ResolveMainFile(fs: FS, projectRoot: Path, main: string) returns (r: Option<Path>)
    ensures r == MainFile(fs, projectRoot, main)
  {
    var mainFilePath := Resolve(projectRoot, main);
    ghost var p := mainFilePath;
    if Ext(mainFilePath) == "" {
      var exts := [".ts", ".js"];
      var i := 0;
      while i < |exts|
        invariant 0 <= i <= |exts|
        invariant mainFilePath == p
        invariant forall j :: 0 <= j < i ==> !Exists(fs, AddSuffix(p, exts[j]))
      {
        var withExt := AddSuffix(mainFilePath, exts[i]);
        if Exists(fs, withExt) {
          mainFilePath := withExt;
          assert exts[0] == ".ts" && exts[1] == ".js";
          break;
        }
        i := i + 1;
      }
      assert exts[0] == ".ts" && exts[1] == ".js";
    }
    assert mainFilePath == (if Ext(p) != "" then p
      else if Exists(fs, AddSuffix(p, ".ts")) then AddSuffix(p, ".ts")
      else if Exists(fs, AddSuffix(p, ".js")) then AddSuffix(p, ".js")
      else p);
    if !Exists(fs, mainFilePath) {
      var srcMainPath := SrcFallback(projectRoot, mainFilePath);
      if Exists(fs, srcMainPath) {
        mainFilePath := srcMainPath;
      }
    }
    r := if Exists(fs, mainFilePath) then Some(mainFilePath) else None;
  }

  /** Whether `analyzeNodeProject` makes a server node: package.json names a non-empty `main` that is found. */
  function ServerPath(fs: FS, projectRoot: Path): (r: Option<Path>)
    ensures r.Some? ==> Exists(fs, r.value)
    ensures r.Some? ==> PackageMain(fs, projectRoot).Some? && PackageMain(fs, projectRoot).value != ""
    ensures !IsFile(fs, projectRoot + ["package.json"]) ==> r == MainFile(fs, projectRoot, "index.js")
  {
    var main := PackageMain(fs, projectRoot);
    if main.Some? && main.value != "" then MainFile(fs, projectRoot, main.value) else None
  }

  function ServerNode(p: Path, text: string): GraphNode {
    GraphNode(Str(PathString(p)), "Server", "server", Some(text), 1, 25.0, None, None)
  }

  /** `nodes.find(n => n.type === kind)` */
  function FindKind(nodes: seq<GraphNode>, kind: string): (r: Option<GraphNode>)
    ensures r.Some? ==> exists k :: (0 <= k < |nodes| && nodes[k] == r.value && r.value.kind == kind &&
      forall j :: 0 <= j < k ==> nodes[j].kind != kind)
    ensures r.None? ==> forall k :: 0 <= k < |nodes| ==> nodes[k].kind != kind
    decreases |nodes|
  {
    if nodes == [] then None
    else if nodes[0].kind == kind then Some(nodes[0])
    else
      var r := FindKind(nodes[1..], kind);
      assert forall k :: 0 < k < |nodes| ==> nodes[k] == nodes[1..][k - 1];
      r
  }

  /** Under the invariant the server lookup finds the second node when a server was pushed, and nothing otherwise. */
  lemma FindServer(fs: FS, nodes: seq<GraphNode>, links: seq<GraphLink>, processed: set<string>, server: bool)
    requires Good(fs, nodes, links, processed, server)
    ensures server ==> FindKind(nodes, "server") == Some(nodes[1])
    ensures !server ==> FindKind(nodes, "server") == None
  {
    assert nodes[0].kind == "application";
    var r := FindKind(nodes, "server");
    if r.Some? {
      var k :| 0 <= k < |nodes| && nodes[k] == r.value && r.value.kind == "server";
      assert k == 1;
    }
    if server {
      assert nodes[1].kind == "server";
    }
  }

  /** The folders `analyzeNodeProject` looks for, in order, with the type of their files. */
  const Folders: seq<(string, string)> := [
    ("routes", "route"), ("controllers", "controller"), ("models", "model"), ("services", "service"),
    ("middleware", "middleware"), ("utils", "utility"), ("config", "config"), ("types", "type"),
    ("prisma", "database"), ("helpers", "helper")]

  /** No standard folder is of kind `server`. */
  lemma FolderKindsNotServer(i: nat)
    requires i < |Folders|
    ensures Folders[i].1 != "server"
  {
    assert |Folders[i].1| != 6 || Folders[i].1[0] != 's';
  }

  function FolderNode(name: string, kind: string): GraphNode {
    GraphNode(Str("folder-" + name), name, kind + "-folder", None, NodeGroup(kind), 20.0, None, None)
  }

  /** The id the folder nodes hang from: the server file's when there is one, else the application's. */
  function ServerOrApp(fs: FS, projectRoot: Path): NodeId {
    match ServerPath(fs, projectRoot)
    case Some(p) => Str(PathString(p))
    case None => AppId
  }

  lemma FolderKind(kind: string)
    ensures kind + "-folder" != "server"
  {
    assert |kind + "-folder"| >= 7;
  }

  /** What the accumulator held it still holds. */
  lemma KeptAll(ctx: Context, n0: seq<GraphNode>, l0: seq<GraphLink>)
    requires |ctx.nodes| >= |n0| && ctx.nodes[..|n0|] == n0 && |ctx.links| >= |l0| && ctx.links[..|l0|] == l0
    ensures forall n :: n in n0 ==> n in ctx.nodes
    ensures forall l :: l in l0 ==> l in ctx.links
  {
    forall n | n in n0
      ensures n in ctx.nodes
    {
      var w :| 0 <= w < |n0| && n0[w] == n;
      assert ctx.nodes[w] == n0[w];
    }
    forall l | l in l0
      ensures l in ctx.links
    {
      var w :| 0 <= w < |l0| && l0[w] == l;
      assert ctx.links[w] == l0[w];
    }
  }

  /**
   * One existing folder: its node, its 'folder-structure' link (value 2) to
   * the node `nodes.find` picks as the server (or the application node),
   * then the scan of its files.
   */
  method AddFolder(fs: FS, ctx: Context, ghost server: bool, projectRoot: Path, folderPath: Path, name: string, kind: string)
    returns (err: Option<IoError>)
    requires Inv(fs, ctx, server) && ServerOrApp(fs, projectRoot) == (if server then ctx.nodes[1].id else AppId)
    requires kind != "server"
    modifies ctx
    ensures Inv(fs, ctx, server) && Grows(ctx, old(ctx.nodes), old(ctx.links), old(ctx.processed))
    ensures ServerOrApp(fs, projectRoot) == (if server then ctx.nodes[1].id else AppId)
    ensures err.None? ==> (FolderNode(name, kind) in ctx.nodes &&
      GraphLink(Str("folder-" + name), ServerOrApp(fs, projectRoot), 2, Some("folder-structure")) in ctx.links)
    ensures |ctx.nodes| > |old(ctx.nodes)| && ctx.nodes[|old(ctx.nodes)|] == FolderNode(name, kind)
    ensures !IsDirectory(fs, folderPath) ==> err.Some?
    ensures NoDangling(fs) && IsDirectory(fs, folderPath) ==> err.None?
  {
    ghost var n0, l0, p0 := ctx.nodes, ctx.links, ctx.processed;
    var folderNode := FolderNode(name, kind);
    FindServer(fs, ctx.nodes, ctx.links, ctx.processed, server);
    var mainNode := FindKind(ctx.nodes, "server").GetOr(AppNode());
    assert mainNode.id == ServerOrApp(fs, projectRoot);
    assert mainNode.id in Ids(ctx.nodes) by {
      assert ctx.nodes[0].id == AppId;
      if server {
        assert ctx.nodes[1].id in Ids(ctx.nodes);
      }
    }
    var link := GraphLink(folderNode.id, mainNode.id, 2, Some("folder-structure"));
    FolderKind(kind);
    assert "folder-structure"[0] != "imports"[0];
    Push(fs, ctx, server, folderNode, link, None);
    ghost var n1, l1, p1 := ctx.nodes, ctx.links, ctx.processed;
    assert folderNode.id in Ids(ctx.nodes);
    err := ScanDirectory(fs, ctx, server, folderPath, folderNode.id, kind, projectRoot);
    GrowsTrans(ctx, n0, l0, p0, n1, l1, p1);
    KeptAll(ctx, n1, l1);
    assert folderNode == n1[|n0|] && link == l1[|l0|];
    if server {
      assert ctx.nodes[1] == ctx.nodes[..|n0|][1] == n0[1];
    }
  }

  /** The entry file, its node and link, and its imports: the first step of `analyzeNodeProject`. */
  method AddServer(fs: FS, ctx: Context, projectRoot: Path) returns (err: Option<IoError>, ghost server: bool)
    requires Inv(fs, ctx, false) && ctx.nodes == [AppNode()] && ctx.links == [] && ctx.processed == {}
    modifies ctx
    ensures err.None? ==> Inv(fs, ctx, server) && (server <==> ServerPath(fs, projectRoot).Some?)
    ensures err.None? && server ==> (|ctx.links| >= 1 && IsFile(fs, ServerPath(fs, projectRoot).value) &&
      ctx.nodes[1] == ServerNode(ServerPath(fs, projectRoot).value, fs[ServerPath(fs, projectRoot).value].content.text) &&
      ctx.links[0] == GraphLink(ctx.nodes[1].id, AppId, 2, Some("server-entry")))
    ensures err.Some? <==> ServerPath(fs, projectRoot).Some? && !IsFile(fs, ServerPath(fs, projectRoot).value)
  {
    err, server := None, false;
    var main := PackageMain(fs, projectRoot);
    if main.Some? && main.value != "" {
      var mainFilePath := ResolveMainFile(fs, projectRoot, main.value);
      if mainFilePath.Some? {
        var path := mainFilePath.value;
        match ReadFile(fs, path)
        case Err(e) =>
          err := Some(e);
        case Ok(mainContent) =>
          var id := PathString(path);
          var mainNode := ServerNode(path, mainContent.text);
          var link := GraphLink(mainNode.id, AppId, 2, Some("server-entry"));
          TreeExtend(ctx.nodes, ctx.links, mainNode, link);
          ctx.AddNode(mainNode);
          ctx.MarkProcessed(id);
          ctx.AddLink(link);
          server := true;
          assert id in PathStrings(fs);
          assert Inv(fs, ctx, server);
          ghost var n1, l1 := ctx.nodes, ctx.links;
          ProcessDependencies(fs, ctx, server, path, mainContent, mainNode.id, projectRoot);
          assert ctx.nodes[1] == ctx.nodes[..|n1|][1] == n1[1];
          assert ctx.links[0] == ctx.links[..|l1|][0] == l1[0];
      }
    }
  }

  /** The entry file is found, but reading it fails: it is a directory. */
  ghost predicate MainUnreadable(fs: FS, projectRoot: Path) {
    ServerPath(fs, projectRoot).Some? && !IsFile(fs, ServerPath(fs, projectRoot).value)
  }

  /** Where the standard folders are looked for: `src` when it exists, else the project root. */
  function SourceRoot(fs: FS, projectRoot: Path): Path {
    if Exists(fs, projectRoot + ["src"]) then projectRoot + ["src"] else projectRoot
  }

  /** The `j`-th standard folder exists but is not a directory, so its `readdir` fails. */
  ghost predicate Blocked(fs: FS, rootDir: Path, j: nat)
    requires j < |Folders|
  {
    Exists(fs, rootDir + [Folders[j].0]) && !IsDirectory(fs, rootDir + [Folders[j].0])
  }

  ghost predicate NoneBlocked(fs: FS, rootDir: Path) {
    forall j :: 0 <= j < |Folders| ==> !Blocked(fs, rootDir, j)
  }

  ghost predicate FolderBlocked(fs: FS, projectRoot: Path) {
    !NoneBlocked(fs, SourceRoot(fs, projectRoot))
  }

  /**
   * `pos[j]` is where the node of the `j`-th standard folder sits, for each
   * of the first `n` folders that exists; the positions follow the order
   * of `Folders`.
   */
  ghost predicate FoldersPlaced(fs: FS, nodes: seq<GraphNode>, rootDir: Path, pos: seq<nat>, n: nat) {
    n <= |Folders| && |pos| == n &&
    (forall j :: 0 <= j < n && Exists(fs, rootDir + [Folders[j].0]) ==>
      pos[j] < |nodes| && nodes[pos[j]] == FolderNode(Folders[j].0, Folders[j].1)) &&
    (forall j, k :: 0 <= j < k < n && Exists(fs, rootDir + [Folders[j].0]) && Exists(fs, rootDir + [Folders[k].0]) ==> pos[j] < pos[k])
  }

  /** The folder nodes of a graph come in the order of `Folders`. */
  ghost predicate FoldersInOrder(fs: FS, nodes: seq<GraphNode>, rootDir: Path) {
    exists pos :: FoldersPlaced(fs, nodes, rootDir, pos, |Folders|)
  }

  /** The folder `i`, pushed at the end of what was there, keeps the earlier placements and extends them. */
  lemma PlacedStep(fs: FS, nodes: seq<GraphNode>, nodes': seq<GraphNode>, rootDir: Path, pos: seq<nat>, i: nat)
    requires FoldersPlaced(fs, nodes, rootDir, pos, i) && i < |Folders|
    requires |nodes| <= |nodes'| && nodes'[..|nodes|] == nodes
    requires Exists(fs, rootDir + [Folders[i].0]) ==> |nodes'| > |nodes| && nodes'[|nodes|] == FolderNode(Folders[i].0, Folders[i].1)
    ensures FoldersPlaced(fs, nodes', rootDir, pos + [|nodes|], i + 1)
  {
    var pos' := pos + [|nodes|];
    forall j | 0 <= j < i + 1 && Exists(fs, rootDir + [Folders[j].0])
      ensures pos'[j] < |nodes'| && nodes'[pos'[j]] == FolderNode(Folders[j].0, Folders[j].1)
    {
      if j < i {
        assert pos'[j] == pos[j];
        Sequences.PrefixIndex(nodes', nodes, pos[j]);
      }
    }
  }

  /**
   * What `analyzeNodeProject` gives, a rejection being `None`. It rejects
   * when the entry file cannot be read or a standard folder cannot be
   * listed, and, when no directory entry dangles, only then. Its graph is a
   * tree hung from the application node; the second node is the server
   * exactly when the entry file is found; every standard folder that exists
   * has its node, in the order of `Folders`, and a 'folder-structure' link
   * to the server, or to the application when there is none.
   */
  ghost predicate Analyzed(fs: FS, projectRoot: Path, g: Option<GraphData>) {
    (MainUnreadable(fs, projectRoot) || FolderBlocked(fs, projectRoot) ==> g.None?) &&
    (NoDangling(fs) && g.None? ==> MainUnreadable(fs, projectRoot) || FolderBlocked(fs, projectRoot)) &&
    (g.Some? ==> |g.value.nodes| >= 1 && g.value.nodes[0] == AppNode() && Tree(g.value.nodes, g.value.links) && Closed(g.value.nodes, g.value.links)) &&
    (g.Some? ==> (FindKind(g.value.nodes, "server").Some? <==> ServerPath(fs, projectRoot).Some?)) &&
    (g.Some? && ServerPath(fs, projectRoot).Some? ==>
      |g.value.nodes| >= 2 && |g.value.links| >= 1 && g.value.nodes[1].id == Str(PathString(ServerPath(fs, projectRoot).value)) &&
      g.value.links[0] == GraphLink(g.value.nodes[1].id, AppId, 2, Some("server-entry"))) &&
    (g.Some? ==> FoldersInOrder(fs, g.value.nodes, SourceRoot(fs, projectRoot))) &&
    (g.Some? ==> forall j :: 0 <= j < |Folders| && Exists(fs, SourceRoot(fs, projectRoot) + [Folders[j].0]) ==>
      GraphLink(Str("folder-" + Folders[j].0), ServerOrApp(fs, projectRoot), 2, Some("folder-structure")) in g.value.links)
  }

  /** `analyzeNodeProject`: the entry file and its imports, then the standard folders. */
  method AnalyzeNodeProject(fs: FS, projectRoot: Path) returns (r: Result<GraphData, IoError>)
    ensures Analyzed(fs, projectRoot, r.ToOption())
  {
    var ctx := new Context(AppNode());
    var err;
    ghost var server;
    err, server := AddServer(fs, ctx, projectRoot);
    if err.Some? {
      return Err(err.value);
    }
    ghost var n1, l1 := ctx.nodes, ctx.links;
    var srcDir := projectRoot + ["src"];
    var rootDir := if Exists(fs, srcDir) then srcDir else projectRoot;
    FindServer(fs, ctx.nodes, ctx.links, ctx.processed, server);
    assert rootDir == SourceRoot(fs, projectRoot);
    ghost var pos;
    err, pos := AddFolders(fs, ctx, server, projectRoot, rootDir);
    if err.Some? {
      return Err(err.value);
    }
    TreeClosed(ctx.nodes, ctx.links);
    FindServer(fs, ctx.nodes, ctx.links, ctx.processed, server);
    if server {
      assert ctx.nodes[1] == n1[1] && ctx.links[0] == l1[0];
    }
    assert FoldersPlaced(fs, ctx.nodes, rootDir, pos, |Folders|);
    return Ok(ctx.Data());
  }

  /** The folder loop of `analyzeNodeProject`: each of the known folders that exists under `rootDir`, in order, stopping at the first that fails. */
  method AddFolders(fs: FS, ctx: Context, ghost server: bool, projectRoot: Path, rootDir: Path) returns (err: Option<IoError>, ghost pos: seq<nat>)
    requires Inv(fs, ctx, server) && ServerOrApp(fs, projectRoot) == (if server then ctx.nodes[1].id else AppId)
    modifies ctx
    ensures Inv(fs, ctx, server) && Grows(ctx, old(ctx.nodes), old(ctx.links), old(ctx.processed))
    ensures err.None? ==> NoneBlocked(fs, rootDir)
    ensures NoDangling(fs) && NoneBlocked(fs, rootDir) ==> err.None?
    ensures err.None? ==> FoldersPlaced(fs, ctx.nodes, rootDir, pos, |Folders|)
    ensures err.None? ==> forall j :: 0 <= j < |Folders| && Exists(fs, rootDir + [Folders[j].0]) ==>
      GraphLink(Str("folder-" + Folders[j].0), ServerOrApp(fs, projectRoot), 2, Some("folder-structure")) in ctx.links
  {
    err, pos := None, [];
    ghost var n0, l0, p0 := ctx.nodes, ctx.links, ctx.processed;
    var i := 0;
    while i < |Folders|
      invariant 0 <= i <= |Folders|
      invariant Inv(fs, ctx, server) && Grows(ctx, n0, l0, p0)
      invariant ServerOrApp(fs, projectRoot) == (if server then ctx.nodes[1].id else AppId)
      invariant FoldersDone(fs, ctx.nodes, ctx.links, projectRoot, rootDir, pos, i) && err.None?
    {
      ghost var n1, l1, p1 := ctx.nodes, ctx.links, ctx.processed;
      err, pos := NextFolder(fs, ctx, server, projectRoot, rootDir, i, pos);
      GrowsTrans(ctx, n0, l0, p0, n1, l1, p1);
      if err.Some? {
        assert !NoDangling(fs) || Blocked(fs, rootDir, i);
        return;
      }
      i := i + 1;
    }
    AllFoldersDone(fs, ctx.nodes, ctx.links, projectRoot, rootDir, pos);
  }

  lemma AllFoldersDone(fs: FS, nodes: seq<GraphNode>, links: seq<GraphLink>, projectRoot: Path, rootDir: Path, pos: seq<nat>)
    requires FoldersDone(fs, nodes, links, projectRoot, rootDir, pos, |Folders|)
    ensures NoneBlocked(fs, rootDir)
    ensures FoldersPlaced(fs, nodes, rootDir, pos, |Folders|)
    ensures forall j :: 0 <= j < |Folders| && Exists(fs, rootDir + [Folders[j].0]) ==>
      GraphLink(Str("folder-" + Folders[j].0), ServerOrApp(fs, projectRoot), 2, Some("folder-structure")) in links
  {
    forall j | 0 <= j < |Folders| && Exists(fs, rootDir + [Folders[j].0])
      ensures GraphLink(Str("folder-" + Folders[j].0), ServerOrApp(fs, projectRoot), 2, Some("folder-structure")) in links
    {
      assert FolderAdded(fs, nodes, links, projectRoot, rootDir, j);
    }
  }

  /** The first `i` standard folders are added, placed in order, and none of them is blocked. */
  ghost predicate FoldersDone(fs: FS, nodes: seq<GraphNode>, links: seq<GraphLink>, projectRoot: Path, rootDir: Path, pos: seq<nat>, i: nat) {
    i <= |Folders| &&
    (forall j :: 0 <= j < i ==> FolderAdded(fs, nodes, links, projectRoot, rootDir, j) && !Blocked(fs, rootDir, j)) &&
    FoldersPlaced(fs, nodes, rootDir, pos, i)
  }

  /** One pass of AddFolders's loop, with the placement of the folder's node. */
  method NextFolder(fs: FS, ctx: Context, ghost server: bool, projectRoot: Path, rootDir: Path, i: nat, ghost pos: seq<nat>)
    returns (err: Option<IoError>, ghost pos': seq<nat>)
    requires Inv(fs, ctx, server) && ServerOrApp(fs, projectRoot) == (if server then ctx.nodes[1].id else AppId) && i < |Folders|
    requires FoldersDone(fs, ctx.nodes, ctx.links, projectRoot, rootDir, pos, i)
    modifies ctx
    ensures Inv(fs, ctx, server) && Grows(ctx, old(ctx.nodes), old(ctx.links), old(ctx.processed))
    ensures ServerOrApp(fs, projectRoot) == (if server then ctx.nodes[1].id else AppId)
    ensures err.None? ==> FoldersDone(fs, ctx.nodes, ctx.links, projectRoot, rootDir, pos', i + 1)
    ensures Blocked(fs, rootDir, i) ==> err.Some?
    ensures NoDangling(fs) && !Blocked(fs, rootDir, i) ==> err.None?
  {
    ghost var n1 := ctx.nodes;
    err := AddFolderAt(fs, ctx, server, projectRoot, rootDir, i);
    pos' := pos + [|n1|];
    if err.None? {
      PlacedStep(fs, n1, ctx.nodes, rootDir, pos, i);
    }
  }

  /** The `j`-th standard folder, when present, has its node and its 'folder-structure' link. */
  ghost predicate FolderAdded(fs: FS, nodes: seq<GraphNode>, links: seq<GraphLink>, projectRoot: Path, rootDir: Path, j: nat)
    requires j < |Folders|
  {
    Exists(fs, rootDir + [Folders[j].0]) ==>
      FolderNode(Folders[j].0, Folders[j].1) in nodes &&
      GraphLink(Str("folder-" + Folders[j].0), ServerOrApp(fs, projectRoot), 2, Some("folder-structure")) in links
  }

  /** One pass of AddFolders's loop: the `i`-th standard folder, when it exists. */
  method AddFolderAt(fs: FS, ctx: Context, ghost server: bool, projectRoot: Path, rootDir: Path, i: nat) returns (err: Option<IoError>)
    requires Inv(fs, ctx, server) && ServerOrApp(fs, projectRoot) == (if server then ctx.nodes[1].id else AppId) && i < |Folders|
    modifies ctx
    ensures Inv(fs, ctx, server) && Grows(ctx, old(ctx.nodes), old(ctx.links), old(ctx.processed))
    ensures ServerOrApp(fs, projectRoot) == (if server then ctx.nodes[1].id else AppId)
    ensures forall j :: 0 <= j < |Folders| && FolderAdded(fs, old(ctx.nodes), old(ctx.links), projectRoot, rootDir, j) ==>
      FolderAdded(fs, ctx.nodes, ctx.links, projectRoot, rootDir, j)
    ensures err.None? ==> FolderAdded(fs, ctx.nodes, ctx.links, projectRoot, rootDir, i)
    ensures Exists(fs, rootDir + [Folders[i].0]) ==>
      |ctx.nodes| > |old(ctx.nodes)| && ctx.nodes[|old(ctx.nodes)|] == FolderNode(Folders[i].0, Folders[i].1)
    ensures Blocked(fs, rootDir, i) ==> err.Some?
    ensures NoDangling(fs) && !Blocked(fs, rootDir, i) ==> err.None?
  {
    err := None;
    var folderPath := rootDir + [Folders[i].0];
    if Exists(fs, folderPath) {
      ghost var n1, l1 := ctx.nodes, ctx.links;
      FolderKindsNotServer(i);
      err := AddFolder(fs, ctx, server, projectRoot, folderPath, Folders[i].0, Folders[i].1);
      KeptAll(ctx, n1, l1);
    }
  }
}
