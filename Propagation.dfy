/**
 * `propagateUpdate`: from a changed module, walk up through its importers to
 * the modules that accept the update (the boundaries), or report a dead end,
 * which forces a full reload.
 *
 * `Propagate`, `CssImporters` and `Importers` define the walk as functions
 * (the two loops of the source become the last two); `PropagateUpdate` is the
 * imperative walk, proved to compute exactly what they define. The
 * boundaries are threaded through as an accumulator, the caller-owned Set of
 * the source; it is a sequence because the Set holds freshly built records
 * that JavaScript compares by identity, so nothing is ever deduplicated.
 */
module Propagation {
  import opened ModuleGraph

  /** One entry of the boundaries Set. */
  datatype Boundary = Boundary(boundary: NodeId, acceptedVia: NodeId)

  /** The outcome of a walk: the dead-end flag and the boundaries so far. */
  datatype Walk = Walk(deadEnd: bool, boundaries: seq<Boundary>)

  /** `isCSSRequest(url)`, a regular expression outside this model. */
  type CssTest = string -> bool

  /**
   * A boundary is sound when its module can really take the update: it
   * accepts itself, or it imports the module it was reached through and
   * accepts that dependency.
   */
  ghost predicate Sound(g: Shape, b: Boundary) {
    && b.boundary in g && b.acceptedVia in g
    && ((b.boundary == b.acceptedVia && g[b.boundary].isSelfAccepting)
        || (b.acceptedVia in g[b.boundary].acceptedHmrDeps
            && b.boundary in g[b.acceptedVia].importers))
  }

  /** `r` keeps every boundary of `acc` and adds only sound ones. */
  ghost predicate Extends(g: Shape, acc: seq<Boundary>, r: seq<Boundary>) {
    acc <= r && forall k :: |acc| <= k < |r| ==> Sound(g, r[k])
  }

  function Elems(chain: seq<NodeId>): set<NodeId> {
    set x | x in chain
  }

  /** `[...importers].every(i => isCSSRequest(i.url))` */
  predicate AllCss(g: Shape, isCss: CssTest, importers: seq<NodeId>)
    requires forall k :: 0 <= k < |importers| ==> importers[k] in g
  {
    forall k :: 0 <= k < |importers| ==> isCss(g[importers[k]].url)
  }

  /**
   * `propagateUpdate(node, boundaries, currentChain)`. The walk terminates:
   * every recursive call extends the chain with a node not yet on it, so the
   * set of graph nodes off the chain shrinks.
   */
  function Propagate(g: Shape, isCss: CssTest, node: NodeId, chain: seq<NodeId>,
                     acc: seq<Boundary>): (r: Walk)
    requires Closed(g) && node in g
    ensures Extends(g, acc, r.boundaries)
    decreases g.Keys - Elems(chain), 1, 0
  {
    var n := g[node];
    if n.isSelfAccepting then
      Walk(false, CssImporters(g, isCss, node, chain, 0, acc + [Boundary(node, node)]))
    else if |n.importers| == 0 then
      Walk(true, acc)
    else if !isCss(n.url) && AllCss(g, isCss, n.importers) then
      Walk(true, acc)
    else
      Importers(g, isCss, node, chain, 0, acc)
  }

  /**
   * The loop of a self-accepting node over its importers from index `k`:
   * CSS importers not on the chain are walked for their boundaries; whether
   * they reach a dead end is ignored.
   */
  function CssImporters(g: Shape, isCss: CssTest, node: NodeId, chain: seq<NodeId>,
                        k: nat, acc: seq<Boundary>): (r: seq<Boundary>)
    requires Closed(g) && node in g && k <= |g[node].importers|
    ensures Extends(g, acc, r)
    decreases g.Keys - Elems(chain), 0, |g[node].importers| - k
  {
    if k == |g[node].importers| then acc
    else
      var i := g[node].importers[k];
      var next :=
        if isCss(g[i].url) && i !in chain then
          assert Elems(chain + [i]) == Elems(chain) + {i};
          Propagate(g, isCss, i, chain + [i], acc).boundaries
        else acc;
      CssImporters(g, isCss, node, chain, k + 1, next)
  }

  /**
   * The loop of a node that does not accept itself over its importers from
   * index `k`: an importer that accepts the node is a boundary; an importer
   * already on the chain closes a cycle, a dead end; any other importer is
   * walked, and its dead end ends the loop.
   */
  function Importers(g: Shape, isCss: CssTest, node: NodeId, chain: seq<NodeId>,
                     k: nat, acc: seq<Boundary>): (r: Walk)
    requires Closed(g) && node in g && k <= |g[node].importers|
    ensures Extends(g, acc, r.boundaries)
    decreases g.Keys - Elems(chain), 0, |g[node].importers| - k
  {
    if k == |g[node].importers| then Walk(false, acc)
    else
      var i := g[node].importers[k];
      if node in g[i].acceptedHmrDeps then
        Importers(g, isCss, node, chain, k + 1, acc + [Boundary(i, node)])
      else if i in chain then
        Walk(true, acc)
      else
        assert Elems(chain + [i]) == Elems(chain) + {i};
        var w := Propagate(g, isCss, i, chain + [i], acc);
        if w.deadEnd then w
        else Importers(g, isCss, node, chain, k + 1, w.boundaries)
  }

  /** An importer that does not accept the node and is already on the chain
      closes a cycle: the loop stops there as a dead end, with the
      boundaries it had. */
  lemma ImporterOnChainIsDeadEnd(g: Shape, isCss: CssTest, node: NodeId, chain: seq<NodeId>,
                                 k: nat, acc: seq<Boundary>)
    requires Closed(g) && node in g && k < |g[node].importers|
    requires node !in g[g[node].importers[k]].acceptedHmrDeps
    requires g[node].importers[k] in chain
    ensures Importers(g, isCss, node, chain, k, acc) == Walk(true, acc)
  {
  }

  /** When the walk from an importer that does not accept the node ends in a
      dead end, the loop stops and returns that walk, skipping the remaining
      importers. */
  lemma DeadEndBelowStopsLoop(g: Shape, isCss: CssTest, node: NodeId, chain: seq<NodeId>,
                              k: nat, acc: seq<Boundary>)
    requires Closed(g) && node in g && k < |g[node].importers|
    requires var i := g[node].importers[k];
             node !in g[i].acceptedHmrDeps && i !in chain
             && Propagate(g, isCss, i, chain + [i], acc).deadEnd
    ensures var i := g[node].importers[k];
            Importers(g, isCss, node, chain, k, acc) == Propagate(g, isCss, i, chain + [i], acc)
  {
  }

  /** An importer that accepts the node is recorded as `(importer, node)` and
      the loop goes on with the next importer. */
  lemma AcceptingImporterRecorded(g: Shape, isCss: CssTest, node: NodeId, chain: seq<NodeId>,
                                  k: nat, acc: seq<Boundary>)
    requires Closed(g) && node in g && k < |g[node].importers|
    requires node in g[g[node].importers[k]].acceptedHmrDeps
    ensures Importers(g, isCss, node, chain, k, acc)
            == Importers(g, isCss, node, chain, k + 1, acc + [Boundary(g[node].importers[k], node)])
  {
  }

  /** The walk as `updateModules` starts it: a fresh boundaries Set and the
      chain `[node]`. */
  function PropagateFrom(g: Shape, isCss: CssTest, node: NodeId): (r: Walk)
    requires Closed(g) && node in g
    ensures forall k :: 0 <= k < |r.boundaries| ==> Sound(g, r.boundaries[k])
  {
    Propagate(g, isCss, node, [node], [])
  }

  /**
   * `propagateUpdate` as the source runs it: two loops over the importers and
   * a recursive call per walked importer. The boundaries Set it fills is
   * passed in as `boundaries` and handed back, extended, as `out`.
   */
  method PropagateUpdate(g: Shape, isCss: CssTest, node: NodeId, chain: seq<NodeId>,
                         boundaries: seq<Boundary>)
    returns (deadEnd: bool, out: seq<Boundary>)
    requires Closed(g) && node in g
    ensures Walk(deadEnd, out) == Propagate(g, isCss, node, chain, boundaries)
    decreases g.Keys - Elems(chain), 1
  {
    var n := g[node];
    if n.isSelfAccepting {
      out := boundaries + [Boundary(node, node)];
      ghost var start := out;
      var k := 0;
      while k < |n.importers|
        invariant 0 <= k <= |n.importers|
        invariant CssImporters(g, isCss, node, chain, k, out)
                  == CssImporters(g, isCss, node, chain, 0, start)
      {
        var i := n.importers[k];
        if isCss(g[i].url) && i !in chain {
          assert Elems(chain + [i]) == Elems(chain) + {i};
          var _, o := PropagateUpdate(g, isCss, i, chain + [i], out);
          out := o;
        }
        k := k + 1;
      }
      return false, out;
    }
    if |n.importers| == 0 {
      return true, boundaries;
    }
    if !isCss(n.url) && AllCss(g, isCss, n.importers) {
      return true, boundaries;
    }
    out := boundaries;
    var k := 0;
    while k < |n.importers|
      invariant 0 <= k <= |n.importers|
      invariant Importers(g, isCss, node, chain, k, out)
                == Importers(g, isCss, node, chain, 0, boundaries)
    {
      var i := n.importers[k];
      if node in g[i].acceptedHmrDeps {
        out := out + [Boundary(i, node)];
      } else if i in chain {
        return true, out;
      } else {
        assert Elems(chain + [i]) == Elems(chain) + {i};
        var d, o := PropagateUpdate(g, isCss, i, chain + [i], out);
        if d {
          return true, o;
        }
        out := o;
      }
      k := k + 1;
    }
    return false, out;
  }

  /** A self-accepting module is its own boundary and never a dead end, even
      when the walk over its CSS importers would reach one. */
  lemma SelfAcceptingIsBoundary(g: Shape, isCss: CssTest, node: NodeId,
                                chain: seq<NodeId>, acc: seq<Boundary>)
    requires Closed(g) && node in g && g[node].isSelfAccepting
    ensures var r := Propagate(g, isCss, node, chain, acc);
            !r.deadEnd && |r.boundaries| > |acc| && r.boundaries[|acc|] == Boundary(node, node)
  {
    var start := acc + [Boundary(node, node)];
    var r := CssImporters(g, isCss, node, chain, 0, start);
    assert start <= r;
    assert r[|acc|] == start[|acc|];
  }

  /** A module that accepts nothing and has no importers is a dead end. */
  lemma NoImportersIsDeadEnd(g: Shape, isCss: CssTest, node: NodeId,
                             chain: seq<NodeId>, acc: seq<Boundary>)
    requires Closed(g) && node in g
    requires !g[node].isSelfAccepting && |g[node].importers| == 0
    ensures Propagate(g, isCss, node, chain, acc) == Walk(true, acc)
  {
  }

  /** A non-CSS module that accepts nothing and is imported only by CSS
      modules is a dead end, whatever those importers accept. */
  lemma CssOnlyImportersIsDeadEnd(g: Shape, isCss: CssTest, node: NodeId,
                                  chain: seq<NodeId>, acc: seq<Boundary>)
    requires Closed(g) && node in g && !g[node].isSelfAccepting
    requires !isCss(g[node].url)
    requires forall k :: 0 <= k < |g[node].importers| ==> isCss(g[g[node].importers[k]].url)
    ensures Propagate(g, isCss, node, chain, acc) == Walk(true, acc)
  {
  }

  /** No module of the graph accepts an update. */
  ghost predicate NoAcceptors(g: Shape) {
    forall id :: id in g ==> !g[id].isSelfAccepting && g[id].acceptedHmrDeps == {}
  }

  /** In a graph where nothing accepts updates every walk is a dead end and
      records no boundary. */
  lemma {:induction false} NoAcceptorsMeansDeadEnd(g: Shape, isCss: CssTest, node: NodeId,
                                                   chain: seq<NodeId>, acc: seq<Boundary>)
    requires Closed(g) && node in g && NoAcceptors(g)
    ensures Propagate(g, isCss, node, chain, acc) == Walk(true, acc)
    decreases g.Keys - Elems(chain), 1, 0
  {
    var n := g[node];
    if |n.importers| > 0 && !(!isCss(n.url) && AllCss(g, isCss, n.importers)) {
      NoAcceptorsImporters(g, isCss, node, chain, 0, acc);
    }
  }

  lemma {:induction false} NoAcceptorsImporters(g: Shape, isCss: CssTest, node: NodeId,
                                                chain: seq<NodeId>, k: nat, acc: seq<Boundary>)
    requires Closed(g) && node in g && NoAcceptors(g) && k < |g[node].importers|
    ensures Importers(g, isCss, node, chain, k, acc) == Walk(true, acc)
    decreases g.Keys - Elems(chain), 0, |g[node].importers| - k
  {
    var i := g[node].importers[k];
    assert node !in g[i].acceptedHmrDeps;
    if i !in chain {
      assert Elems(chain + [i]) == Elems(chain) + {i};
      NoAcceptorsMeansDeadEnd(g, isCss, i, chain + [i], acc);
    }
  }

  /** A walk that is not a dead end has found at least one boundary. */
  lemma {:induction false} LiveWalkRecordsBoundary(g: Shape, isCss: CssTest, node: NodeId,
                                                   chain: seq<NodeId>, acc: seq<Boundary>)
    requires Closed(g) && node in g
    ensures var r := Propagate(g, isCss, node, chain, acc);
            !r.deadEnd ==> |r.boundaries| > |acc|
    decreases g.Keys - Elems(chain), 1, 0
  {
    var n := g[node];
    if n.isSelfAccepting {
      SelfAcceptingIsBoundary(g, isCss, node, chain, acc);
    } else if |n.importers| > 0 && !(!isCss(n.url) && AllCss(g, isCss, n.importers)) {
      LiveImportersRecordBoundary(g, isCss, node, chain, 0, acc);
    }
  }

  lemma {:induction false} LiveImportersRecordBoundary(g: Shape, isCss: CssTest, node: NodeId,
                                                       chain: seq<NodeId>, k: nat,
                                                       acc: seq<Boundary>)
    requires Closed(g) && node in g && k < |g[node].importers|
    ensures var r := Importers(g, isCss, node, chain, k, acc);
            !r.deadEnd ==> |r.boundaries| > |acc|
    decreases g.Keys - Elems(chain), 0, |g[node].importers| - k
  {
    var i := g[node].importers[k];
    if node in g[i].acceptedHmrDeps {
      var next := acc + [Boundary(i, node)];
      assert next <= Importers(g, isCss, node, chain, k + 1, next).boundaries;
    } else if i !in chain {
      assert Elems(chain + [i]) == Elems(chain) + {i};
      LiveWalkRecordsBoundary(g, isCss, i, chain + [i], acc);
      var w := Propagate(g, isCss, i, chain + [i], acc);
      if !w.deadEnd {
        assert w.boundaries <= Importers(g, isCss, node, chain, k + 1, w.boundaries).boundaries;
      }
    }
  }

  /** Every importer of `node` that accepts it as a dependency. */
  ghost predicate Acceptor(g: Shape, node: NodeId, i: NodeId)
    requires node in g && i in g
  {
    i in g[node].importers && node in g[i].acceptedHmrDeps
  }

  /** When a module that does not accept itself is not a dead end, every
      importer that accepts it has been recorded as a boundary for it. */
  lemma LiveWalkCoversAcceptors(g: Shape, isCss: CssTest, node: NodeId,
                                chain: seq<NodeId>, acc: seq<Boundary>)
    requires Closed(g) && node in g && !g[node].isSelfAccepting
    ensures var r := Propagate(g, isCss, node, chain, acc);
            !r.deadEnd ==>
              forall i :: i in g && Acceptor(g, node, i) ==> Boundary(i, node) in r.boundaries
  {
    var n := g[node];
    if |n.importers| > 0 && !(!isCss(n.url) && AllCss(g, isCss, n.importers)) {
      ImportersCoverAcceptors(g, isCss, node, chain, 0, acc);
    }
  }

  lemma {:induction false} ImportersCoverAcceptors(g: Shape, isCss: CssTest, node: NodeId,
                                                   chain: seq<NodeId>, k: nat,
                                                   acc: seq<Boundary>)
    requires Closed(g) && node in g && k <= |g[node].importers|
    ensures var r := Importers(g, isCss, node, chain, k, acc);
            !r.deadEnd ==>
              forall j :: k <= j < |g[node].importers| && node in g[g[node].importers[j]].acceptedHmrDeps
                ==> Boundary(g[node].importers[j], node) in r.boundaries
    decreases |g[node].importers| - k
  {
    if k < |g[node].importers| {
      var i := g[node].importers[k];
      if node in g[i].acceptedHmrDeps {
        var next := acc + [Boundary(i, node)];
        ImportersCoverAcceptors(g, isCss, node, chain, k + 1, next);
        var r := Importers(g, isCss, node, chain, k + 1, next);
        assert next <= r.boundaries;
        assert next[|acc|] == Boundary(i, node);
      } else if i !in chain {
        var w := Propagate(g, isCss, i, chain + [i], acc);
        if !w.deadEnd {
          ImportersCoverAcceptors(g, isCss, node, chain, k + 1, w.boundaries);
        }
      }
    }
  }
}
