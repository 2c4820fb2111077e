/**
 * The module graph that HMR works on, as an arena: node ids map to node
 * records and edges are ids. A node's `info` is what propagation reads (its
 * URL, type, importers and HMR acceptance); the timestamp and the three cached
 * artifacts are what invalidation clears.
 */
module ModuleGraph {
  import opened Wrappers

  type NodeId = nat

  /** `ModuleNode.type`: the kind of update a boundary receives. */
  datatype ModuleType = Js | Css {
    function Name(): string {
      match this
      case Js => "js"
      case Css => "css"
    }
  }

  datatype ModuleInfo = ModuleInfo(
    url: string,
    kind: ModuleType,
    importers: seq<NodeId>,         // a Set, listed in insertion order
    acceptedHmrDeps: set<NodeId>,
    isSelfAccepting: bool)

  /** A memoised compile result; its contents are opaque to this engine. */
  type Artifact = string

  datatype ModuleNode = ModuleNode(
    info: ModuleInfo,
    lastHMRTimestamp: int,
    transformResult: Option<Artifact>,
    ssrModule: Option<Artifact>,
    ssrTransformResult: Option<Artifact>)

  type Graph = map<NodeId, ModuleNode>

  /** The graph as propagation sees it. */
  type Shape = map<NodeId, ModuleInfo>

  function ShapeOf(g: Graph): (s: Shape)
    ensures s.Keys == g.Keys
    ensures forall id :: id in g ==> s[id] == g[id].info
  {
    map id | id in g :: g[id].info
  }

  /** Every importer of a node is a node of the graph. */
  ghost predicate Closed(g: Shape) {
    forall id, k :: id in g && 0 <= k < |g[id].importers| ==> g[id].importers[k] in g
  }

  /** Every module of a list is a node of the graph. */
  ghost predicate AllIn(g: Shape, mods: seq<NodeId>) {
    forall k :: 0 <= k < |mods| ==> mods[k] in g
  }

  /** What `invalidate` does to one node: stamp it and drop its caches. */
  function Invalidated(n: ModuleNode, timestamp: int): (r: ModuleNode)
    ensures r.info == n.info && r.lastHMRTimestamp == timestamp
    ensures r.transformResult.None? && r.ssrModule.None? && r.ssrTransformResult.None?
  {
    n.(lastHMRTimestamp := timestamp, transformResult := None, ssrModule := None,
       ssrTransformResult := None)
  }

  /** Stamping nodes and dropping their caches leaves the shape alone. */
  lemma SameShape(g: Graph, h: Graph)
    requires g.Keys == h.Keys && forall id :: id in g ==> g[id].info == h[id].info
    ensures ShapeOf(g) == ShapeOf(h)
  {
  }

  /** The graph after invalidating the nodes in `s`. */
  function Stamp(g: Graph, s: set<NodeId>, timestamp: int): (r: Graph)
    ensures r.Keys == g.Keys
    ensures forall id :: id in g ==>
              r[id] == (if id in s then Invalidated(g[id], timestamp) else g[id])
  {
    map id | id in g :: if id in s then Invalidated(g[id], timestamp) else g[id]
  }

  lemma StampKeepsShape(g: Graph, s: set<NodeId>, timestamp: int)
    ensures ShapeOf(Stamp(g, s, timestamp)) == ShapeOf(g)
  {
    SameShape(Stamp(g, s, timestamp), g);
  }

  /** Invalidating two sets one after the other is invalidating their union. */
  lemma StampTwice(g: Graph, s: set<NodeId>, t: set<NodeId>, timestamp: int)
    ensures Stamp(Stamp(g, s, timestamp), t, timestamp) == Stamp(g, s + t, timestamp)
  {
  }

  lemma StampNothing(g: Graph, timestamp: int)
    ensures Stamp(g, {}, timestamp) == g
  {
  }
}
