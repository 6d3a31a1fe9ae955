/**
 * The graph the analyzers hand to the webview (`GraphNode`, `GraphLink`,
 * `GraphData`), and the shared accumulator the analyzers push into.
 */
module Graph {
  import opened Wrappers

  /** Node identifiers are file paths and labels, or dense indices in the generic graph. */
  datatype NodeId = Str(s: string) | Idx(i: nat)

  datatype GraphNode = GraphNode(
    id: NodeId,
    name: string,
    kind: string,
    content: Option<string>,
    group: int,
    radius: real,
    project: Option<string>,
    projectRoot: Option<string>)

  datatype GraphLink = GraphLink(source: NodeId, target: NodeId, value: int, kind: Option<string>)

  datatype GraphData = GraphData(nodes: seq<GraphNode>, links: seq<GraphLink>)

  function Ids(nodes: seq<GraphNode>): set<NodeId> {
    set i | 0 <= i < |nodes| :: nodes[i].id
  }

  lemma IdsAppend(nodes: seq<GraphNode>, n: GraphNode)
    ensures Ids(nodes + [n]) == Ids(nodes) + {n.id}
  {
    var ns := nodes + [n];
    assert ns[|nodes|] == n;
    forall x | x in Ids(nodes)
      ensures x in Ids(ns)
    {
      var i :| 0 <= i < |nodes| && nodes[i].id == x;
      assert ns[i] == nodes[i];
    }
  }

  predicate UniqueIds(nodes: seq<GraphNode>) {
    forall i, j :: 0 <= i < j < |nodes| ==> nodes[i].id != nodes[j].id
  }

  /** Every link joins two nodes of the graph. */
  predicate Closed(nodes: seq<GraphNode>, links: seq<GraphLink>) {
    forall k :: 0 <= k < |links| ==> links[k].source in Ids(nodes) && links[k].target in Ids(nodes)
  }

  /** The link kind drawn from an existing node down to the node it introduces; every other kind points from the new node up. */
  predicate Downward(kind: Option<string>) {
    kind == Some("imports")
  }

  /** A '<type>-structure' link points up, and is not a navigation route. */
  lemma StructureKind(t: string)
    ensures !Downward(Some(t + "-structure")) && t + "-structure" != "navigation-route"
  {
    var k := t + "-structure";
    assert k[|k| - 1] == 'e' && k[|k| - 10] == '-';
    assert "imports"[6] == 's';
    assert "navigation-route"[6] == 't';
  }

  /** The end of a structural link that is the node it was created for. */
  function Introduces(l: GraphLink): NodeId {
    if Downward(l.kind) then l.target else l.source
  }

  /** The end of a structural link that already existed when it was created. */
  function Anchor(l: GraphLink): NodeId {
    if Downward(l.kind) then l.source else l.target
  }

  /**
   * The shape the structural analyzers build: the first node is the
   * application node, and link `k` is the one structural link of node
   * `k + 1`, joining it to a node that came before it.
   */
  predicate Tree(nodes: seq<GraphNode>, links: seq<GraphLink>) {
    |nodes| >= 1 && |links| == |nodes| - 1 &&
    forall k :: 0 <= k < |links| ==> Introduces(links[k]) == nodes[k + 1].id && Anchor(links[k]) in Ids(nodes[..k + 1])
  }

  /** Such a graph is closed: every link joins two of its nodes. */
  lemma TreeClosed(nodes: seq<GraphNode>, links: seq<GraphLink>)
    requires Tree(nodes, links)
    ensures Closed(nodes, links)
  {
    forall k | 0 <= k < |links|
      ensures links[k].source in Ids(nodes) && links[k].target in Ids(nodes)
    {
      assert nodes[k + 1].id in Ids(nodes);
      var i :| 0 <= i < |nodes[..k + 1]| && nodes[..k + 1][i].id == Anchor(links[k]);
      assert nodes[i] == nodes[..k + 1][i];
    }
  }

  /** Adding a node together with the link that anchors it to an existing node keeps the shape. */
  lemma TreeExtend(nodes: seq<GraphNode>, links: seq<GraphLink>, n: GraphNode, l: GraphLink)
    requires Tree(nodes, links)
    requires Introduces(l) == n.id && Anchor(l) in Ids(nodes)
    ensures Tree(nodes + [n], links + [l])
  {
    var ns := nodes + [n];
    var ls := links + [l];
    assert ns[..|nodes|] == nodes;
    forall k | 0 <= k < |ls|
      ensures Introduces(ls[k]) == ns[k + 1].id && Anchor(ls[k]) in Ids(ns[..k + 1])
    {
      if k < |links| {
        assert ls[k] == links[k] && ns[k + 1] == nodes[k + 1];
        assert ns[..k + 1] == nodes[..k + 1];
      }
    }
  }

  /**
   * The `nodes`, `links` and `processedFiles` an analyzer threads through
   * its helpers, which push into them.
   */
  class Context {
    var nodes: seq<GraphNode>
    var links: seq<GraphLink>
    var processed: set<string>

    constructor (root: GraphNode)
      ensures nodes == [root] && links == [] && processed == {}
    {
      nodes := [root];
      links := [];
      processed := {};
    }

    function Data(): GraphData
      reads this
    {
      GraphData(nodes, links)
    }

    method AddNode(n: GraphNode)
      modifies this
      ensures nodes == old(nodes) + [n] && links == old(links) && processed == old(processed)
      ensures Ids(nodes) == Ids(old(nodes)) + {n.id}
    {
      IdsAppend(nodes, n);
      nodes := nodes + [n];
    }

    method AddLink(l: GraphLink)
      modifies this
      ensures links == old(links) + [l] && nodes == old(nodes) && processed == old(processed)
    {
      links := links + [l];
    }

    method MarkProcessed(f: string)
      modifies this
      ensures processed == old(processed) + {f} && nodes == old(nodes) && links == old(links)
    {
      processed := processed + {f};
    }
  }

  /** The walk's accumulator only grows: what was there stays, in place. */
  ghost predicate Grows(ctx: Context, n0: seq<GraphNode>, l0: seq<GraphLink>, p0: set<string>)
    reads ctx
  {
    |ctx.nodes| >= |n0| && ctx.nodes[..|n0|] == n0 && |ctx.links| >= |l0| && ctx.links[..|l0|] == l0 && p0 <= ctx.processed
  }

  lemma GrowsTrans(ctx: Context, n0: seq<GraphNode>, l0: seq<GraphLink>, p0: set<string>, n1: seq<GraphNode>, l1: seq<GraphLink>, p1: set<string>)
    requires |n1| >= |n0| && n1[..|n0|] == n0 && |l1| >= |l0| && l1[..|l0|] == l0 && p0 <= p1
    requires Grows(ctx, n1, l1, p1)
    ensures Grows(ctx, n0, l0, p0)
  {
    assert ctx.nodes[..|n0|] == ctx.nodes[..|n1|][..|n0|];
    assert ctx.links[..|l0|] == ctx.links[..|l1|][..|l0|];
  }

  /** Nodes numbered by position and links between numbers below their count: every link joins two nodes. */
  lemma ClosedByIndex(nodes: seq<GraphNode>, links: seq<GraphLink>)
    requires forall i :: 0 <= i < |nodes| ==> nodes[i].id == Idx(i)
    requires forall k :: 0 <= k < |links| ==>
      links[k].source.Idx? && links[k].source.i < |nodes| && links[k].target.Idx? && links[k].target.i < |nodes|
    ensures Closed(nodes, links)
  {
    forall k | 0 <= k < |links|
      ensures links[k].source in Ids(nodes) && links[k].target in Ids(nodes)
    {
      assert nodes[links[k].source.i].id == links[k].source;
      assert nodes[links[k].target.i].id == links[k].target;
    }
  }

  lemma KeptId(ctx: Context, n0: seq<GraphNode>, id: NodeId)
    requires |ctx.nodes| >= |n0| && ctx.nodes[..|n0|] == n0 && id in Ids(n0)
    ensures id in Ids(ctx.nodes)
  {
    var w :| 0 <= w < |n0| && n0[w].id == id;
    assert ctx.nodes[w] == n0[w];
  }
}
