/**
 * `DependencyNode` and `DependencyTree`: a tree of nodes keyed by id, with
 * parent pointers, an ordered child map and a dependency set per node, and
 * its flattening into graph data by a depth-first walk from the root.
 */
module Structures {
  import opened Wrappers
  import opened Graph
  import opened LookupTables
  import Extractors
  import opened Sequences

  class DependencyNode {
    const id: string
    const kind: string
    const name: string
    const content: Option<string>
    /** `children`, a `Map` from child id to child, with its keys in insertion order. */
    var childKeys: seq<string>
    var children: map<string, DependencyNode>
    /** `dependencies`, a `Set` of ids, in insertion order. */
    var dependencies: seq<string>
    var parent: DependencyNode?

    ghost predicate Valid()
      reads this
    {
      Extractors.Distinct(childKeys) && children.Keys == (set i | 0 <= i < |childKeys| :: childKeys[i]) &&
      Extractors.Distinct(dependencies)
    }

    constructor (id: string, kind: string, name: string, content: Option<string>)
      ensures this.id == id && this.kind == kind && this.name == name && this.content == content
      ensures childKeys == [] && children == map[] && dependencies == [] && parent == null
      ensures Valid()
    {
      this.id := id;
      this.kind := kind;
      this.name := name;
      this.content := content;
      childKeys := [];
      children := map[];
      dependencies := [];
      parent := null;
    }

    /** `addChild`: the node points back here and replaces any child with its id. */
    method AddChild(node: DependencyNode)
      requires Valid()
      modifies this, node
      ensures node.parent == this
      ensures children == old(children)[node.id := node]
      ensures childKeys == if node.id in old(childKeys) then old(childKeys) else old(childKeys) + [node.id]
      ensures dependencies == old(dependencies)
      ensures node != this ==> node.children == old(node.children) && node.childKeys == old(node.childKeys) && node.dependencies == old(node.dependencies)
      ensures node != this ==> parent == old(parent)
      ensures Valid()
    {
      node.parent := this;
      if node.id !in childKeys {
        assert (set i | 0 <= i < |childKeys + [node.id]| :: (childKeys + [node.id])[i]) == children.Keys + {node.id} by {
          var ks := childKeys + [node.id];
          assert ks[|childKeys|] == node.id;
          forall i | 0 <= i < |childKeys|
            ensures childKeys[i] in (set i | 0 <= i < |ks| :: ks[i])
          {
            assert ks[i] == childKeys[i];
          }
          forall i | 0 <= i < |ks|
            ensures ks[i] in children.Keys + {node.id}
          {
            if i < |childKeys| {
              assert ks[i] == childKeys[i];
            }
          }
        }
        childKeys := childKeys + [node.id];
      }
      children := children[node.id := node];
    }

    /** `addDependency`: a set insertion. */
    method AddDependency(dep: string)
      requires Valid()
      modifies this
      ensures dependencies == if dep in old(dependencies) then old(dependencies) else old(dependencies) + [dep]
      ensures childKeys == old(childKeys) && children == old(children) && parent == old(parent)
      ensures Valid()
    {
      if dep !in dependencies {
        dependencies := dependencies + [dep];
      }
    }
  }

  /** A node of the flattened graph: the tree node's fields plus its depth. */
  datatype TreeNode = TreeNode(id: string, name: string, kind: string, content: Option<string>, group: int, radius: int, level: nat)

  datatype TreeGraph = TreeGraph(nodes: seq<TreeNode>, links: seq<GraphLink>)

  const Groups: map<string, int> := map["project" := 0, "server" := 1, "client" := 1, "page" := 2, "layout" := 3, "component" := 4, "api" := 5]
  const Radii: map<string, int> := map["project" := 30, "server" := 25, "client" := 25, "page" := 15, "layout" := 20, "component" := 10, "api" := 12]

  function NodeGroup(kind: string): int {
    OrDefault(Groups, kind, 6)
  }

  function NodeRadius(kind: string): int {
    OrDefault(Radii, kind, 10)
  }

  /** Groups fall back to 6 for unknown types, and so does 'project' (its 0 is falsy); radii fall back to 10. */
  lemma GroupAndRadius(kind: string)
    ensures NodeGroup("project") == 6 && NodeRadius("project") == 30
    ensures 1 <= NodeGroup(kind) <= 6
    ensures kind !in Groups ==> NodeGroup(kind) == 6 && NodeRadius(kind) == 10
    ensures kind in Groups && kind != "project" ==> NodeGroup(kind) == Groups[kind]
  {
  }

  /** A node typed `constructor` reads an inherited function from `groups` and `sizes`, where the model gives 6 and 10. */
  lemma InheritedKindLooks()
    ensures OrDefaultAsWritten(Groups, "constructor", 6) == Inherited("constructor") && NodeGroup("constructor") == 6
    ensures OrDefaultAsWritten(Radii, "constructor", 10) == Inherited("constructor") && NodeRadius("constructor") == 10
  {
  }

  class DependencyTree {
    var root: DependencyNode
    var nodesMap: map<string, DependencyNode>
    /** Every node ever created for this tree. */
    ghost var Nodes: set<DependencyNode>

    ghost predicate Valid()
      reads this, Nodes
    {
      root in Nodes && root.id == "root" &&
      (forall k :: k in nodesMap ==> nodesMap[k] in Nodes) &&
      (forall n :: n in Nodes ==> n.Valid() && (n.parent == null || n.parent in Nodes)) &&
      (forall n, k :: n in Nodes && k in n.children ==> n.children[k] in Nodes && n.children[k].parent == n)
    }

    /** A new tree holds only its root: a 'project' named after the project type, without a parent. */
    constructor (projectType: string)
      ensures Valid() && fresh(Nodes)
      ensures nodesMap == map["root" := root]
      ensures root.kind == "project" && root.name == projectType && root.parent == null
      ensures root.children == map[] && root.dependencies == []
    {
      var r := new DependencyNode("root", "project", projectType, None);
      root := r;
      nodesMap := map["root" := r];
      Nodes := {r};
    }

    /**
     * `addNode`: the id is always rebound to the new node; the node becomes
     * a child of the node `parentId` names after that rebinding, if any.
     */
    method AddNode(id: string, kind: string, name: string, content: Option<string>, parentId: string) returns (node: DependencyNode)
      requires Valid()
      modifies this, if parentId in nodesMap then {nodesMap[parentId]} else {}
      ensures Valid()
      ensures fresh(node) && Nodes == old(Nodes) + {node} && root == old(root)
      ensures node.id == id && node.kind == kind && node.name == name && node.content == content && node.dependencies == []
      ensures nodesMap == old(nodesMap)[id := node]
      ensures parentId == id ==> node.parent == node && node.children == map[id := node]
      ensures parentId != id && parentId in old(nodesMap) ==>
        node.parent == old(nodesMap)[parentId] && node.children == map[] &&
        node.parent.children == old(nodesMap[parentId].children)[id := node]
      ensures parentId != id && parentId !in old(nodesMap) ==> node.parent == null && node.children == map[]
    {
      node := new DependencyNode(id, kind, name, content);
      Register(node);
      if parentId in nodesMap {
        Attach(nodesMap[parentId], node);
      }
    }

    /** `this.nodes.set(id, node)` for a node new to the tree, which is nobody's child yet. */
    method Register(node: DependencyNode)
      requires Valid() && node !in Nodes && node.Valid() && node.parent == null && node.children == map[]
      modifies this
      ensures Valid() && nodesMap == old(nodesMap)[node.id := node] && Nodes == old(Nodes) + {node} && root == old(root)
      ensures forall n, k :: n in Nodes && k in n.children ==> n.children[k] != node
    {
      nodesMap := nodesMap[node.id := node];
      Nodes := Nodes + {node};
    }

    /** `parent.addChild(node)` for a node that is nobody's child yet. */
    method Attach(parent: DependencyNode, node: DependencyNode)
      requires Valid() && parent in Nodes && node in Nodes
      requires forall n, k :: n in Nodes && k in n.children ==> n.children[k] != node
      modifies parent, node
      ensures Valid()
      ensures node.parent == parent && parent.children == old(parent.children)[node.id := node]
      ensures node.dependencies == old(node.dependencies) && (node != parent ==> node.children == old(node.children))
    {
      parent.AddChild(node);
      forall n, k | n in Nodes && k in n.children
        ensures n.children[k] in Nodes && n.children[k].parent == n
      {
        if n == parent && k == node.id {
        } else if n == parent {
          assert k in old(parent.children);
        } else if n != node {
          assert k in old(n.children);
        }
      }
      forall n | n in Nodes
        ensures n.Valid() && (n.parent == null || n.parent in Nodes)
      {
        if n != node && n != parent {
          assert n.parent == old(n.parent);
        }
      }
    }

    ghost function AllIds(): set<string>
      reads this, Nodes
    {
      set n | n in Nodes :: n.id
    }

    function Render(n: DependencyNode, level: nat): TreeNode
      reads n
    {
      TreeNode(n.id, n.name, n.kind, n.content, NodeGroup(n.kind), NodeRadius(n.kind), level)
    }

    /** The dependency links of a node: one per dependency id the tree knows, whether or not it is reachable. */
    function DepLinks(src: string, deps: seq<string>): (r: seq<GraphLink>)
      reads this
      ensures forall k :: 0 <= k < |r| ==> r[k].source == Str(src) && r[k].target.Str? && r[k].target.s in nodesMap && r[k].kind == Some("dependency")
      decreases |deps|
    {
      if deps == [] then []
      else (if deps[0] in nodesMap then [GraphLink(Str(src), Str(deps[0]), 1, Some("dependency"))] else []) + DepLinks(src, deps[1..])
    }

    /** A node of this tree whose parent, if any, is too. */
    ghost predicate InTree(n: DependencyNode)
      reads this, Nodes
    {
      n in Nodes && (n.parent == null || n.parent in Nodes)
    }

    /** The links emitted with a node: the hierarchy link unless the parent is missing or is 'root', then its dependency links. */
    function NodeLinks(n: DependencyNode): seq<GraphLink>
      requires InTree(n)
      reads this, Nodes
    {
      (if n.parent != null && n.parent.id != "root" then [GraphLink(Str(n.id), Str(n.parent.id), 1, Some("hierarchy"))] else []) +
      DepLinks(n.id, n.dependencies)
    }

    function AllLinks(em: seq<DependencyNode>): seq<GraphLink>
      requires forall k :: 0 <= k < |em| ==> InTree(em[k])
      reads this, Nodes
      decreases |em|
    {
      if em == [] then [] else NodeLinks(em[0]) + AllLinks(em[1..])
    }

    lemma {:induction false} AllLinksAppend(em: seq<DependencyNode>, n: DependencyNode)
      requires forall k :: 0 <= k < |em| ==> InTree(em[k])
      requires InTree(n)
      ensures AllLinks(em + [n]) == AllLinks(em) + NodeLinks(n)
      decreases |em|
    {
      if em == [] {
        assert [n][1..] == [];
      } else {
        assert (em + [n])[1..] == em[1..] + [n];
        AllLinksAppend(em[1..], n);
      }
    }

    /** The emitted node at `k` is a child of an earlier emitted node, one level deeper. */
    ghost predicate ParentAt(em: seq<DependencyNode>, ns: seq<TreeNode>, k: nat)
      requires k < |em| && |em| == |ns|
      reads em
    {
      exists j :: 0 <= j < k && em[k] in em[j].children.Values && ns[k].level == ns[j].level + 1
    }

    /** Every node emitted after position `from` hangs below an earlier one. */
    ghost predicate Shaped(em: seq<DependencyNode>, ns: seq<TreeNode>, from: nat)
      requires |em| == |ns|
      reads em
    {
      forall k :: from < k < |em| ==> ParentAt(em, ns, k)
    }

    /** `ns` renders the tree nodes `em`, each at its own level. */
    ghost predicate Emitted(em: seq<DependencyNode>, ns: seq<TreeNode>)
      reads this, Nodes
    {
      |em| == |ns| && forall k :: 0 <= k < |em| ==> InTree(em[k]) && ns[k] == Render(em[k], ns[k].level)
    }

    predicate DistinctIds(ns: seq<TreeNode>) {
      forall i, j :: 0 <= i < j < |ns| ==> ns[i].id != ns[j].id
    }

    function IdSet(ns: seq<TreeNode>): set<string> {
      set k | 0 <= k < |ns| :: ns[k].id
    }

    lemma ParentAtPrefix(em: seq<DependencyNode>, ns: seq<TreeNode>, em': seq<DependencyNode>, ns': seq<TreeNode>, k: nat)
      requires k < |em| <= |em'| && |em| == |ns| && |em'| == |ns'|
      requires em'[..|em|] == em && ns'[..|ns|] == ns
      requires ParentAt(em, ns, k)
      ensures ParentAt(em', ns', k)
    {
      var j :| 0 <= j < k && em[k] in em[j].children.Values && ns[k].level == ns[j].level + 1;
      assert em'[j] == em[j] && em'[k] == em[k] && ns'[j] == ns[j] && ns'[k] == ns[k];
    }

    /** After walking one child of the node at `me`, every node after `me` still hangs below an earlier one. */
    lemma ShapedAfterChild(emB: seq<DependencyNode>, nsB: seq<TreeNode>, em: seq<DependencyNode>, ns: seq<TreeNode>, me: nat, child: DependencyNode)
      requires me < |emB| <= |em| && |emB| == |nsB| && |em| == |ns|
      requires em[..|emB|] == emB && ns[..|nsB|] == nsB
      requires Shaped(emB, nsB, me)
      requires Shaped(em, ns, |emB|)
      requires |em| > |emB| ==> em[|emB|] == child && ns[|emB|].level == ns[me].level + 1 && child in em[me].children.Values
      ensures Shaped(em, ns, me)
    {
      forall k | me < k < |em|
        ensures ParentAt(em, ns, k)
      {
        if k < |emB| {
          assert ParentAt(emB, nsB, k);
          ParentAtPrefix(emB, nsB, em, ns, k);
        } else if k == |emB| {
          assert em[k] in em[me].children.Values && ns[k].level == ns[me].level + 1;
        }
      }
    }

    /** Every child of a node emitted from position `from` on has its id among `processed`. */
    ghost predicate ClosedFrom(em: seq<DependencyNode>, processed: set<string>, from: nat)
      reads em
    {
      forall k, c :: from <= k < |em| && c in em[k].children.Values ==> c.id in processed
    }

    /** Closure over an old prefix and over the new suffix is closure over both. */
    lemma ClosedJoin(emB: seq<DependencyNode>, pB: set<string>, em: seq<DependencyNode>, p: set<string>, from: nat)
      requires |emB| <= |em| && em[..|emB|] == emB && pB <= p
      requires ClosedFrom(emB, pB, from) && ClosedFrom(em, p, |emB|)
      ensures ClosedFrom(em, p, from)
    {
      forall k, c | from <= k < |em| && c in em[k].children.Values
        ensures c.id in p
      {
        if k < |emB| {
          PrefixIndex(em, emB, k);
        }
      }
    }

    /** Once every child key of the node at `me` has its child's id processed, closure reaches back to `me`. */
    lemma ClosedAt(em: seq<DependencyNode>, processed: set<string>, me: nat)
      requires me < |em| && em[me].Valid()
      requires ChildrenDone(em[me], |em[me].childKeys|, processed)
      requires ClosedFrom(em, processed, me + 1)
      ensures ClosedFrom(em, processed, me)
    {
      var node := em[me];
      forall c | c in node.children.Values
        ensures c.id in processed
      {
        var key :| key in node.children && node.children[key] == c;
        assert key in (set j | 0 <= j < |node.childKeys| :: node.childKeys[j]);
      }
    }

    /** Emitting a node not yet emitted keeps the emission facts. */
    lemma EmitStep(em0: seq<DependencyNode>, nodes0: seq<TreeNode>, node: DependencyNode, level: nat)
      requires InTree(node)
      requires Emitted(em0, nodes0) && DistinctIds(nodes0) && node.id !in IdSet(nodes0)
      ensures Emitted(em0 + [node], nodes0 + [Render(node, level)])
      ensures DistinctIds(nodes0 + [Render(node, level)])
      ensures IdSet(nodes0 + [Render(node, level)]) == IdSet(nodes0) + {node.id}
      ensures (em0 + [node])[..|em0|] == em0 && (nodes0 + [Render(node, level)])[..|nodes0|] == nodes0
      ensures node.id in AllIds()
    {
      var em := em0 + [node];
      var ns := nodes0 + [Render(node, level)];
      forall k | 0 <= k < |nodes0|
        ensures nodes0[k].id != node.id
      {
        assert nodes0[k].id in IdSet(nodes0);
      }
      forall k | 0 <= k < |em|
        ensures InTree(em[k]) && ns[k] == Render(em[k], ns[k].level)
      {
        if k < |em0| {
          assert em[k] == em0[k] && ns[k] == nodes0[k];
        }
      }
      forall i, j | 0 <= i < j < |ns|
        ensures ns[i].id != ns[j].id
      {
        assert ns[i] == nodes0[i];
        if j < |nodes0| {
          assert ns[j] == nodes0[j];
        }
      }
      assert IdSet(ns) == IdSet(nodes0) + {node.id} by {
        assert ns[|nodes0|].id == node.id;
        forall k | 0 <= k < |nodes0|
          ensures nodes0[k].id in IdSet(ns)
        {
          assert ns[k] == nodes0[k];
        }
      }
    }

    /**
     * The recursive `addNode` closure of `toGraphData`: a node already
     * visited adds nothing; otherwise it is emitted at `level` with its
     * links, and then its children are walked.
     */
    method Visit(node: DependencyNode, level: nat, nodes0: seq<TreeNode>, links0: seq<GraphLink>, processed0: set<string>, ghost em0: seq<DependencyNode>)
      returns (nodes: seq<TreeNode>, links: seq<GraphLink>, processed: set<string>, ghost em: seq<DependencyNode>)
      requires Valid() && node in Nodes
      requires Emitted(em0, nodes0) && DistinctIds(nodes0) && links0 == AllLinks(em0)
      requires processed0 == IdSet(nodes0) && processed0 <= AllIds()
      ensures |em0| <= |em| && |nodes0| <= |nodes|
      ensures Emitted(em, nodes) && DistinctIds(nodes) && links == AllLinks(em)
      ensures em[..|em0|] == em0 && nodes[..|nodes0|] == nodes0
      ensures processed == IdSet(nodes) && processed0 + {node.id} <= processed <= AllIds()
      ensures node.id in processed0 ==> nodes == nodes0 && links == links0
      ensures node.id !in processed0 ==> |nodes| > |nodes0| && em[|em0|] == node && nodes[|nodes0|].level == level
      ensures Shaped(em, nodes, |em0|)
      ensures ClosedFrom(em, processed, |em0|)
      decreases AllIds() - processed0, 2
    {
      if node.id in processed0 {
        return nodes0, links0, processed0, em0;
      }
      EmitStep(em0, nodes0, node, level);
      AllLinksAppend(em0, node);
      var ns1 := nodes0 + [Render(node, level)];
      ghost var em1 := em0 + [node];
      nodes, links, processed, em := WalkChildren(node, level, |em0|, ns1, links0 + NodeLinks(node), processed0 + {node.id}, em1, processed0);
      PrefixTrans(em0, em1, em);
      PrefixTrans(nodes0, ns1, nodes);
    }

    /** `node.children.forEach(child => addNode(child, level + 1))`, with the node emitted at index `me`. */
    method WalkChildren(node: DependencyNode, level: nat, ghost me: nat, nodes1: seq<TreeNode>, links1: seq<GraphLink>, processed1: set<string>,
                        ghost em1: seq<DependencyNode>, ghost base: set<string>)
      returns (nodes: seq<TreeNode>, links: seq<GraphLink>, processed: set<string>, ghost em: seq<DependencyNode>)
      requires Valid() && node in Nodes
      requires Emitted(em1, nodes1) && DistinctIds(nodes1) && links1 == AllLinks(em1)
      requires processed1 == IdSet(nodes1) && processed1 <= AllIds()
      requires node.id !in base && base + {node.id} <= processed1
      requires me < |em1| && em1[me] == node && nodes1[me].level == level
      requires Shaped(em1, nodes1, me)
      requires ClosedFrom(em1, processed1, me + 1)
      ensures |em1| <= |em| && |nodes1| <= |nodes|
      ensures Emitted(em, nodes) && DistinctIds(nodes) && links == AllLinks(em)
      ensures em[..|em1|] == em1 && nodes[..|nodes1|] == nodes1
      ensures processed == IdSet(nodes) && processed1 <= processed <= AllIds()
      ensures Shaped(em, nodes, me)
      ensures ClosedFrom(em, processed, me)
      decreases AllIds() - base, 1
    {
      nodes, links, processed, em := nodes1, links1, processed1, em1;
      var i := 0;
      while i < |node.childKeys|
        invariant 0 <= i <= |node.childKeys|
        invariant WalkState(node, level, me, i, nodes1, em1, nodes, links, processed, em)
      {
        nodes, links, processed, em := WalkChild(node, level, me, i, nodes1, em1, base, nodes, links, processed, em);
        i := i + 1;
      }
      PrefixIndex(em, em1, me);
      ClosedAt(em, processed, me);
    }

    /** The state of `WalkChildren` after the first `i` children of the node at `me`. */
    ghost predicate WalkState(node: DependencyNode, level: nat, me: nat, i: nat, nodes1: seq<TreeNode>, em1: seq<DependencyNode>,
                              nodes: seq<TreeNode>, links: seq<GraphLink>, processed: set<string>, em: seq<DependencyNode>)
      reads this, Nodes, node, em, em1
    {
      i <= |node.childKeys| && me < |em1| && me < |nodes1| &&
      |em| == |nodes| && |em1| <= |em| && |nodes1| <= |nodes| &&
      em[..|em1|] == em1 && nodes[..|nodes1|] == nodes1 &&
      Emitted(em, nodes) && DistinctIds(nodes) && links == AllLinks(em) &&
      processed == IdSet(nodes) && IdSet(nodes1) <= processed <= AllIds() &&
      Shaped(em, nodes, me) && ClosedFrom(em, processed, me + 1) &&
      ChildrenDone(node, i, processed)
    }

    /** The first `i` children of `node` have their ids processed. */
    ghost predicate ChildrenDone(node: DependencyNode, i: nat, processed: set<string>)
      reads node
    {
      i <= |node.childKeys| &&
      forall j :: 0 <= j < i && node.childKeys[j] in node.children ==> node.children[node.childKeys[j]].id in processed
    }

    lemma ChildrenDoneStep(node: DependencyNode, i: nat, p0: set<string>, p: set<string>)
      requires ChildrenDone(node, i, p0) && p0 <= p && i < |node.childKeys|
      requires node.childKeys[i] in node.children ==> node.children[node.childKeys[i]].id in p
      ensures ChildrenDone(node, i + 1, p)
    {
    }

    /** One step of `WalkChildren`: the walk of child `i`. */
    method WalkChild(node: DependencyNode, level: nat, ghost me: nat, i: nat, ghost nodes1: seq<TreeNode>, ghost em1: seq<DependencyNode>, ghost base: set<string>,
                     nodes0: seq<TreeNode>, links0: seq<GraphLink>, processed0: set<string>, ghost em0: seq<DependencyNode>)
      returns (nodes: seq<TreeNode>, links: seq<GraphLink>, processed: set<string>, ghost em: seq<DependencyNode>)
      requires Valid() && node in Nodes && i < |node.childKeys|
      requires WalkState(node, level, me, i, nodes1, em1, nodes0, links0, processed0, em0)
      requires em1[me] == node && nodes1[me].level == level
      requires node.id !in base && base + {node.id} <= IdSet(nodes1)
      ensures WalkState(node, level, me, i + 1, nodes1, em1, nodes, links, processed, em)
      ensures |nodes0| <= |nodes| && nodes[..|nodes0|] == nodes0 && processed0 <= processed && ChildrenDone(node, i + 1, processed)
      decreases AllIds() - base, 0
    {
      var key := node.childKeys[i];
      assert key in node.children.Keys;
      var child := node.children[key];
      assert child in node.children.Values;
      PrefixIndex(em0, em1, me);
      PrefixIndex(nodes0, nodes1, me);
      nodes, links, processed, em := Visit(child, level + 1, nodes0, links0, processed0, em0);
      PrefixTrans(em1, em0, em);
      PrefixTrans(nodes1, nodes0, nodes);
      ShapedAfterChild(em0, nodes0, em, nodes, me, child);
      ClosedJoin(em0, processed0, em, processed, me + 1);
      ChildrenDoneStep(node, i, processed0, processed);
    }

    /**
     * `toGraphData`: the walk from the root. Each id is emitted once, at its
     * first visit; every emitted node but the root is a child of an earlier
     * emitted node at one level less; links are exactly the emitted nodes'
     * own links, in emission order.
     */
    method ToGraphData() returns (r: TreeGraph, ghost em: seq<DependencyNode>)
      requires Valid()
      ensures |em| == |r.nodes| && |r.nodes| >= 1 && em[0] == root && r.nodes[0] == Render(root, 0)
      ensures Emitted(em, r.nodes) && DistinctIds(r.nodes)
      ensures r.links == AllLinks(em)
      ensures Shaped(em, r.nodes, 0)
      ensures ClosedFrom(em, IdSet(r.nodes), 0)
    {
      var nodes, links, processed;
      nodes, links, processed, em := Visit(root, 0, [], [], {}, []);
      r := TreeGraph(nodes, links);
    }

    /** A node with no parent other than the root is never emitted: nodes added under a missing parent stay invisible. */
    lemma OrphansNotEmitted(r: TreeGraph, em: seq<DependencyNode>)
      requires Valid()
      requires |em| >= 1 && em[0] == root && |em| == |r.nodes|
      requires Emitted(em, r.nodes) && Shaped(em, r.nodes, 0)
      ensures forall k :: 0 <= k < |em| ==> em[k] == root || em[k].parent != null
    {
      forall k | 0 < k < |em|
        ensures em[k].parent != null
      {
        assert ParentAt(em, r.nodes, k);
        var j :| 0 <= j < k && em[k] in em[j].children.Values && r.nodes[k].level == r.nodes[j].level + 1;
        var key :| key in em[j].children && em[j].children[key] == em[k];
        assert em[k].parent == em[j];
      }
    }
  }
}
