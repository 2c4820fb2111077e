/**
 * Which modules `invalidate` reaches. From a changed module it moves to each
 * importer that does not accept that module as a dependency, skipping the
 * modules already in the `seen` Set. These definitions describe that set
 * independently of the recursive procedure that computes it.
 */
module Invalidation {
  import opened ModuleGraph

  /** `i` is an importer of `id` that does not accept it, so it must be
      invalidated along with `id`. */
  ghost predicate Spreads(g: Shape, id: NodeId, i: NodeId)
    requires id in g && i in g
  {
    i in g[id].importers && id !in g[i].acceptedHmrDeps
  }

  /** A chain of invalidations that starts anywhere and never enters `avoid`. */
  ghost predicate Path(g: Shape, p: seq<NodeId>, avoid: set<NodeId>) {
    && |p| > 0
    && (forall j :: 0 <= j < |p| ==> p[j] in g && p[j] !in avoid)
    && (forall j :: 0 <= j < |p| - 1 ==> Spreads(g, p[j], p[j + 1]))
  }

  /** Invalidating `from` with `avoid` already seen reaches `to`. */
  ghost predicate Reaches(g: Shape, from: NodeId, to: NodeId, avoid: set<NodeId>) {
    exists p :: Path(g, p, avoid) && p[0] == from && p[|p| - 1] == to
  }

  /** Every importer of `id` that `id`'s invalidation spreads to is in `s`. */
  ghost predicate ClosedUnder(g: Shape, id: NodeId, s: set<NodeId>)
    requires id in g && Closed(g)
  {
    forall j :: 0 <= j < |g[id].importers| && id !in g[g[id].importers[j]].acceptedHmrDeps
      ==> g[id].importers[j] in s
  }

  lemma ReachesSelf(g: Shape, id: NodeId, avoid: set<NodeId>)
    requires id in g && id !in avoid
    ensures Reaches(g, id, id, avoid)
  {
    assert Path(g, [id], avoid);
  }

  /** A chain from an importer that avoids more extends to a chain from the
      module it spreads from. */
  lemma ReachesThrough(g: Shape, mod: NodeId, i: NodeId, to: NodeId,
                       avoid: set<NodeId>, avoid': set<NodeId>)
    requires mod in g && i in g && mod !in avoid && avoid <= avoid'
    requires Spreads(g, mod, i) && Reaches(g, i, to, avoid')
    ensures Reaches(g, mod, to, avoid)
  {
    var p :| Path(g, p, avoid') && p[0] == i && p[|p| - 1] == to;
    var q := [mod] + p;
    assert forall j :: 0 < j < |q| ==> q[j] == p[j - 1];
    assert Path(g, q, avoid);
  }

  /**
   * A set that holds `mod` and is closed under spreading for every member
   * outside `avoid` holds everything invalidation reaches from `mod`.
   */
  lemma {:induction false} ClosedSetHoldsReach(g: Shape, s: set<NodeId>, avoid: set<NodeId>,
                                               p: seq<NodeId>)
    requires Closed(g) && Path(g, p, avoid) && p[0] in s
    requires forall id :: id in s - avoid && id in g ==> ClosedUnder(g, id, s)
    ensures p[|p| - 1] in s
    decreases |p|
  {
    if |p| > 1 {
      var id := p[0];
      assert Spreads(g, id, p[1]);
      var j :| 0 <= j < |g[id].importers| && g[id].importers[j] == p[1];
      assert ClosedUnder(g, id, s);
      var rest := p[1..];
      assert Path(g, rest, avoid);
      ClosedSetHoldsReach(g, s, avoid, rest);
    }
  }

  /** Seeing more modules beforehand only removes chains. */
  lemma ReachesWithLess(g: Shape, from: NodeId, to: NodeId, avoid: set<NodeId>,
                        avoid': set<NodeId>)
    requires Reaches(g, from, to, avoid') && avoid <= avoid'
    ensures Reaches(g, from, to, avoid)
  {
    var p :| Path(g, p, avoid') && p[0] == from && p[|p| - 1] == to;
    assert Path(g, p, avoid);
  }

  /** Invalidating the first `n` modules of `mods` from scratch reaches `id`. */
  ghost predicate InvalidatedBy(g: Shape, mods: seq<NodeId>, n: nat, id: NodeId)
    requires n <= |mods|
  {
    exists j :: 0 <= j < n && Reaches(g, mods[j], id, {})
  }

  /**
   * The `seen` Set after `invalidate(mod, timestamp, seen)`: unchanged when
   * `mod` was seen, otherwise `mod` added and then each importer that does
   * not accept `mod` invalidated in turn.
   */
  function Spread(g: Shape, mod: NodeId, seen: set<NodeId>): (r: set<NodeId>)
    requires Closed(g) && mod in g
    ensures seen <= r && mod in r && r - seen <= g.Keys
    decreases g.Keys - seen, 0, 0
  {
    if mod in seen then seen else SpreadImporters(g, mod, 0, seen + {mod})
  }

  /** The `forEach` over the importers of `mod`, from index `k`. */
  function SpreadImporters(g: Shape, mod: NodeId, k: nat, seen: set<NodeId>): (r: set<NodeId>)
    requires Closed(g) && mod in g && k <= |g[mod].importers|
    ensures seen <= r && r - seen <= g.Keys
    decreases g.Keys - seen, 1, |g[mod].importers| - k
  {
    if k == |g[mod].importers| then seen
    else
      var i := g[mod].importers[k];
      var next := if mod in g[i].acceptedHmrDeps then seen else Spread(g, i, seen);
      SpreadImporters(g, mod, k + 1, next)
  }

  /**
   * The modules `invalidate` adds are exactly those it reaches from `mod`
   * without passing a seen module, and each of them has its own
   * non-accepting importers in the result.
   */
  lemma {:induction false} SpreadExact(g: Shape, mod: NodeId, seen: set<NodeId>)
    requires Closed(g) && mod in g
    ensures var r := Spread(g, mod, seen);
            forall id :: id in r - seen ==> id in g && ClosedUnder(g, id, r)
    ensures var r := Spread(g, mod, seen);
            forall id :: id in r - seen <==> Reaches(g, mod, id, seen)
    decreases g.Keys - seen, 0, 0
  {
    var r := Spread(g, mod, seen);
    if mod !in seen {
      SpreadImportersFacts(g, mod, 0, seen + {mod}, seen);
      ReachesSelf(g, mod, seen);
      forall id | Reaches(g, mod, id, seen)
        ensures id in r
      {
        var p :| Path(g, p, seen) && p[0] == mod && p[|p| - 1] == id;
        ClosedSetHoldsReach(g, r, seen, p);
      }
    }
  }

  lemma {:induction false} SpreadImportersFacts(g: Shape, mod: NodeId, k: nat,
                                                seen: set<NodeId>, seen0: set<NodeId>)
    requires Closed(g) && mod in g && k <= |g[mod].importers|
    requires seen0 <= seen && mod in seen && mod !in seen0
    ensures var r := SpreadImporters(g, mod, k, seen);
            forall id :: id in r - seen ==>
              id in g && ClosedUnder(g, id, r) && Reaches(g, mod, id, seen0)
    ensures var r := SpreadImporters(g, mod, k, seen);
            forall j :: k <= j < |g[mod].importers| && mod !in g[g[mod].importers[j]].acceptedHmrDeps
              ==> g[mod].importers[j] in r
    decreases g.Keys - seen, 1, |g[mod].importers| - k
  {
    if k < |g[mod].importers| {
      var i := g[mod].importers[k];
      if mod in g[i].acceptedHmrDeps {
        SpreadImportersFacts(g, mod, k + 1, seen, seen0);
      } else {
        var next := Spread(g, i, seen);
        var r := SpreadImporters(g, mod, k + 1, next);
        SpreadExact(g, i, seen);
        SpreadImportersFacts(g, mod, k + 1, next, seen0);
        forall id | id in next - seen
          ensures ClosedUnder(g, id, r) && Reaches(g, mod, id, seen0)
        {
          ReachesThrough(g, mod, i, id, seen0, seen);
        }
      }
    }
  }

  /** The `invalidatedModules` Set of `updateModules` after the modules
      `mods`, each invalidated in turn with the Set of the ones before. */
  function SpreadAll(g: Shape, mods: seq<NodeId>): (r: set<NodeId>)
    requires Closed(g) && AllIn(g, mods)
    ensures r <= g.Keys
    decreases |mods|
  {
    if mods == [] then {}
    else Spread(g, mods[|mods| - 1], SpreadAll(g, mods[..|mods| - 1]))
  }

  /** Every module a batch invalidates has its non-accepting importers
      invalidated too. */
  lemma {:induction false} SpreadAllClosed(g: Shape, mods: seq<NodeId>)
    requires Closed(g) && AllIn(g, mods)
    ensures forall id :: id in SpreadAll(g, mods) ==> ClosedUnder(g, id, SpreadAll(g, mods))
    decreases |mods|
  {
    if mods != [] {
      var init, last := mods[..|mods| - 1], mods[|mods| - 1];
      var s := SpreadAll(g, init);
      var r := Spread(g, last, s);
      SpreadAllClosed(g, init);
      SpreadExact(g, last, s);
      forall id | id in s
        ensures ClosedUnder(g, id, r)
      {
        assert ClosedUnder(g, id, s);
      }
    }
  }

  /** Whatever a batch invalidates, one of its modules reaches. */
  lemma {:induction false} SpreadAllSound(g: Shape, mods: seq<NodeId>)
    requires Closed(g) && AllIn(g, mods)
    ensures forall id :: id in SpreadAll(g, mods) ==> InvalidatedBy(g, mods, |mods|, id)
    decreases |mods|
  {
    if mods != [] {
      var init, last := mods[..|mods| - 1], mods[|mods| - 1];
      var s := SpreadAll(g, init);
      SpreadAllSound(g, init);
      SpreadExact(g, last, s);
      forall id | id in Spread(g, last, s)
        ensures InvalidatedBy(g, mods, |mods|, id)
      {
        if id in s {
          var j :| 0 <= j < |init| && Reaches(g, init[j], id, {});
          assert mods[j] == init[j];
        } else {
          ReachesWithLess(g, last, id, {}, s);
        }
      }
    }
  }

  /** Whatever one of its modules reaches, a batch invalidates. */
  lemma {:induction false} SpreadAllComplete(g: Shape, mods: seq<NodeId>)
    requires Closed(g) && AllIn(g, mods)
    ensures forall id :: id in g && InvalidatedBy(g, mods, |mods|, id) ==> id in SpreadAll(g, mods)
    decreases |mods|
  {
    if mods != [] {
      var init, last := mods[..|mods| - 1], mods[|mods| - 1];
      var r := SpreadAll(g, mods);
      SpreadAllComplete(g, init);
      SpreadAllClosed(g, mods);
      forall id | id in g && InvalidatedBy(g, mods, |mods|, id)
        ensures id in r
      {
        var j :| 0 <= j < |mods| && Reaches(g, mods[j], id, {});
        if j < |init| {
          assert mods[j] == init[j];
          assert InvalidatedBy(g, init, |init|, id);
        } else {
          var p :| Path(g, p, {}) && p[0] == last && p[|p| - 1] == id;
          ClosedSetHoldsReach(g, r, {}, p);
        }
      }
    }
  }

  /**
   * A batch invalidates exactly the modules that invalidating any one of its
   * modules on its own would reach: sharing the `seen` Set between them
   * saves work but changes nothing.
   */
  lemma SpreadAllExact(g: Shape, mods: seq<NodeId>)
    requires Closed(g) && AllIn(g, mods)
    ensures forall id :: id in SpreadAll(g, mods) <==> id in g && InvalidatedBy(g, mods, |mods|, id)
  {
    SpreadAllSound(g, mods);
    SpreadAllComplete(g, mods);
  }
}
