/**
 * Small module graphs walked end to end: what `propagateUpdate` finds and
 * what `updateModules` sends for a cycle, a self-accepting importer, an
 * importer that accepts its dependency, and a diamond.
 */
module HmrScenarios {
  import opened Wrappers
  import opened ModuleGraph
  import opened Propagation
  import opened UpdateDispatch

  /** A host that treats no URL as a CSS request. */
  const NoCss: CssTest := (url: string) => false

  function Script(url: string, importers: seq<NodeId>, accepts: set<NodeId>,
                  selfAccepting: bool): ModuleInfo {
    ModuleInfo(url, Js, importers, accepts, selfAccepting)
  }

  /** `a` and `b` import each other and neither accepts anything. */
  function Cycle(): Shape {
    map[0 := Script("/a.js", [1], {}, false), 1 := Script("/b.js", [0], {}, false)]
  }

  /** Walking a cycle without acceptors comes back to the chain: a dead
      end, so the batch is a full reload. */
  lemma CycleIsDeadEnd(timestamp: int)
    ensures Closed(Cycle()) && AllIn(Cycle(), [0])
    ensures PropagateFrom(Cycle(), NoCss, 0) == Walk(true, [])
    ensures Dispatch(Cycle(), NoCss, [0], timestamp) == FullReload(None)
  {
    var g := Cycle();
    assert Closed(g);
    assert Importers(g, NoCss, 1, [0, 1], 0, []) == Walk(true, []);
    assert Propagate(g, NoCss, 1, [0, 1], []) == Walk(true, []);
    assert Importers(g, NoCss, 0, [0], 0, []) == Walk(true, []);
    assert Propagate(g, NoCss, 0, [0], []) == Walk(true, []);
    assert [0][..0] == [];
  }

  lemma UpdateKinds()
    ensures Js.Name() + "-update" == JsUpdate
  {
  }

  /** `a` is imported by `b`, which accepts itself and is imported by `c`. */
  function SelfAcceptingImporter(): Shape {
    map[0 := Script("/a.js", [1], {}, false), 1 := Script("/b.js", [2], {}, true),
        2 := Script("/c.js", [], {}, false)]
  }

  /** The boundary is the self-accepting importer, accepting itself: the
      walk records `(b, b)`, not `(b, c)`, and stops there. */
  lemma SelfAcceptingImporterIsBoundary(timestamp: int)
    ensures Closed(SelfAcceptingImporter()) && AllIn(SelfAcceptingImporter(), [0])
    ensures PropagateFrom(SelfAcceptingImporter(), NoCss, 0) == Walk(false, [Boundary(1, 1)])
    ensures Dispatch(SelfAcceptingImporter(), NoCss, [0], timestamp)
            == Update([UpdateRecord(JsUpdate, timestamp, "/b.js", "/b.js")])
  {
    var g := SelfAcceptingImporter();
    var bs := [Boundary(1, 1)];
    assert Closed(g);
    assert CssImporters(g, NoCss, 1, [0, 1], 1, bs) == bs;
    assert CssImporters(g, NoCss, 1, [0, 1], 0, [] + bs) == bs;
    assert Propagate(g, NoCss, 1, [0, 1], []) == Walk(false, bs);
    assert [0] + [1] == [0, 1];
    assert Importers(g, NoCss, 0, [0], 1, bs) == Walk(false, bs);
    assert Importers(g, NoCss, 0, [0], 0, []) == Walk(false, bs);
    assert Propagate(g, NoCss, 0, [0], []) == Walk(false, bs);
    Dispatched(g, 0, bs, timestamp);
    UpdateKinds();
  }

  /** `a` is imported by `b`, which accepts `a`. */
  function AcceptingImporter(): Shape {
    map[0 := Script("/a.js", [1], {}, false), 1 := Script("/b.js", [], {0}, false)]
  }

  /** The accepting importer is the boundary, accepting the changed module. */
  lemma AcceptingImporterIsBoundary(timestamp: int)
    ensures Closed(AcceptingImporter()) && AllIn(AcceptingImporter(), [0])
    ensures PropagateFrom(AcceptingImporter(), NoCss, 0) == Walk(false, [Boundary(1, 0)])
    ensures Dispatch(AcceptingImporter(), NoCss, [0], timestamp)
            == Update([UpdateRecord(JsUpdate, timestamp, "/b.js", "/a.js")])
  {
    var g := AcceptingImporter();
    var bs := [Boundary(1, 0)];
    assert Closed(g);
    assert [] + bs == bs && 0 in g[1].acceptedHmrDeps;
    assert Importers(g, NoCss, 0, [0], 1, [] + bs) == Walk(false, bs);
    assert Importers(g, NoCss, 0, [0], 0, []) == Walk(false, bs);
    assert Propagate(g, NoCss, 0, [0], []) == Walk(false, bs);
    Dispatched(g, 0, bs, timestamp);
    UpdateKinds();
  }

  /** `a` is imported by `b` and `c`, both imported by the self-accepting `d`. */
  function Diamond(): Shape {
    map[0 := Script("/a.js", [1, 2], {}, false), 1 := Script("/b.js", [3], {}, false),
        2 := Script("/c.js", [3], {}, false), 3 := Script("/d.js", [], {}, true)]
  }

  /** Reached along two paths, `d` is recorded twice: the boundaries are not
      de-duplicated, and neither are the update records. */
  lemma DiamondRecordsTwice(timestamp: int)
    ensures Closed(Diamond()) && AllIn(Diamond(), [0])
    ensures PropagateFrom(Diamond(), NoCss, 0) == Walk(false, [Boundary(3, 3), Boundary(3, 3)])
    ensures var u := UpdateRecord(JsUpdate, timestamp, "/d.js", "/d.js");
            Dispatch(Diamond(), NoCss, [0], timestamp) == Update([u, u])
  {
    var g := Diamond();
    var d := Boundary(3, 3);
    assert Closed(g);
    DiamondTop(g);
    Dispatched(g, 0, [d, d], timestamp);
    UpdateKinds();
  }

  lemma DiamondTop(g: Shape)
    requires g == Diamond()
    ensures Propagate(g, NoCss, 0, [0], []) == Walk(false, [Boundary(3, 3), Boundary(3, 3)])
  {
    var d := Boundary(3, 3);
    assert Closed(g);
    DiamondBranch(g, 1, []);
    DiamondBranch(g, 2, [d]);
    assert [0] + [1] == [0, 1] && [0] + [2] == [0, 2] && [] + [d] == [d];
    assert Importers(g, NoCss, 0, [0], 2, [d, d]) == Walk(false, [d, d]);
    assert Importers(g, NoCss, 0, [0], 1, [d]) == Walk(false, [d, d]);
    assert Importers(g, NoCss, 0, [0], 0, []) == Walk(false, [d, d]);
  }

  /** One side of the diamond: `b` or `c` leads to `d`, which adds itself. */
  lemma DiamondBranch(g: Shape, side: NodeId, acc: seq<Boundary>)
    requires g == Diamond() && side in {1, 2}
    ensures Propagate(g, NoCss, side, [0, side], acc) == Walk(false, acc + [Boundary(3, 3)])
  {
    var out := acc + [Boundary(3, 3)];
    assert Closed(g);
    assert CssImporters(g, NoCss, 3, [0, side, 3], 0, out) == out;
    assert Propagate(g, NoCss, 3, [0, side] + [3], acc) == Walk(false, out);
    assert Importers(g, NoCss, side, [0, side], 1, out) == Walk(false, out);
    assert Importers(g, NoCss, side, [0, side], 0, acc) == Walk(false, out);
  }

  /** The message for a batch of one module whose walk is live. */
  lemma Dispatched(g: Shape, m: NodeId, bs: seq<Boundary>, timestamp: int)
    requires Closed(g) && m in g && PropagateFrom(g, NoCss, m) == Walk(false, bs)
    ensures AllIn(g, [m])
    ensures Dispatch(g, NoCss, [m], timestamp) == Update(Records(g, bs, timestamp))
  {
    assert [m][..0] == [];
    assert Collect(g, NoCss, [], timestamp) == Some([]);
    assert [] + Records(g, bs, timestamp) == Records(g, bs, timestamp);
  }
}
