/**
 * What `updateModules` sends: one message for a batch of changed modules.
 * The modules are walked in order; the first dead end turns the message into
 * a full reload (with no path) and stops all further walking, otherwise every
 * boundary found becomes one update record, in the order found.
 */
module UpdateDispatch {
  import opened Wrappers
  import opened ModuleGraph
  import opened Propagation

  /** One entry of an `update` message. */
  datatype UpdateRecord = UpdateRecord(kind: string, timestamp: int, path: string,
                                       acceptedPath: string)

  /** The messages the HMR engine sends to the client. */
  datatype HmrPayload = FullReload(path: Option<string>) | Update(updates: seq<UpdateRecord>)

  const JsUpdate := "js-update"
  const CssUpdate := "css-update"

  ghost predicate BoundariesIn(g: Shape, bs: seq<Boundary>) {
    forall k :: 0 <= k < |bs| ==> bs[k].boundary in g && bs[k].acceptedVia in g
  }

  /** The record built for one boundary: `${boundary.type}-update`, the
      boundary's URL and the URL of the module it accepted. */
  function Record(g: Shape, b: Boundary, timestamp: int): (r: UpdateRecord)
    requires b.boundary in g && b.acceptedVia in g
    ensures r.kind == (if g[b.boundary].kind.Js? then JsUpdate else CssUpdate)
    ensures r.timestamp == timestamp
    ensures r.path == g[b.boundary].url && r.acceptedPath == g[b.acceptedVia].url
  {
    UpdateRecord(g[b.boundary].kind.Name() + "-update", timestamp, g[b.boundary].url,
                 g[b.acceptedVia].url)
  }

  /** The boundaries of one walk, mapped to records in order. */
  function Records(g: Shape, bs: seq<Boundary>, timestamp: int): (r: seq<UpdateRecord>)
    requires BoundariesIn(g, bs)
    ensures |r| == |bs|
    ensures forall k :: 0 <= k < |bs| ==> r[k] == Record(g, bs[k], timestamp)
  {
    if bs == [] then [] else [Record(g, bs[0], timestamp)] + Records(g, bs[1..], timestamp)
  }

  /**
   * The state of the loop of `updateModules` after the modules `mods`:
   * `None` once some walk has hit a dead end, otherwise the records so far.
   */
  function Collect(g: Shape, isCss: CssTest, mods: seq<NodeId>, timestamp: int)
    : (r: Option<seq<UpdateRecord>>)
    requires Closed(g) && AllIn(g, mods)
    decreases |mods|
  {
    if mods == [] then Some([])
    else
      match Collect(g, isCss, mods[..|mods| - 1], timestamp)
      case None => None
      case Some(u) =>
        var w := PropagateFrom(g, isCss, mods[|mods| - 1]);
        if w.deadEnd then None else Some(u + Records(g, w.boundaries, timestamp))
  }

  /** The message `updateModules` sends. */
  function Dispatch(g: Shape, isCss: CssTest, mods: seq<NodeId>, timestamp: int)
    : (r: HmrPayload)
    requires Closed(g) && AllIn(g, mods)
    ensures r.FullReload? ==> r.path.None?
  {
    match Collect(g, isCss, mods, timestamp)
    case None => FullReload(None)
    case Some(u) => Update(u)
  }

  /** Some walk of the batch is a dead end. */
  ghost predicate SomeDeadEnd(g: Shape, isCss: CssTest, mods: seq<NodeId>)
    requires Closed(g) && AllIn(g, mods)
  {
    exists k :: 0 <= k < |mods| && PropagateFrom(g, isCss, mods[k]).deadEnd
  }

  /** Every module's records, concatenated in module order, as if no walk
      stopped the batch. */
  function AllRecords(g: Shape, isCss: CssTest, mods: seq<NodeId>, timestamp: int)
    : (r: seq<UpdateRecord>)
    requires Closed(g) && AllIn(g, mods)
  {
    if mods == [] then []
    else Records(g, PropagateFrom(g, isCss, mods[0]).boundaries, timestamp)
         + AllRecords(g, isCss, mods[1..], timestamp)
  }

  lemma {:induction false} AllRecordsSnoc(g: Shape, isCss: CssTest, mods: seq<NodeId>,
                                          timestamp: int)
    requires Closed(g) && AllIn(g, mods) && mods != []
    ensures AllRecords(g, isCss, mods, timestamp)
            == AllRecords(g, isCss, mods[..|mods| - 1], timestamp)
               + Records(g, PropagateFrom(g, isCss, mods[|mods| - 1]).boundaries, timestamp)
    decreases |mods|
  {
    if |mods| > 1 {
      var tail := mods[1..];
      assert tail[..|tail| - 1] == mods[..|mods| - 1][1..];
      assert tail[|tail| - 1] == mods[|mods| - 1];
      AllRecordsSnoc(g, isCss, tail, timestamp);
    } else {
      assert mods[1..] == [];
      assert mods[..0] == [];
    }
  }

  /** The batch reloads the page exactly when some module's walk is a dead
      end. */
  lemma {:induction false} CollectStopsAtDeadEnd(g: Shape, isCss: CssTest, mods: seq<NodeId>,
                                                 timestamp: int)
    requires Closed(g) && AllIn(g, mods)
    ensures Collect(g, isCss, mods, timestamp).None? <==> SomeDeadEnd(g, isCss, mods)
    decreases |mods|
  {
    if mods != [] {
      var init := mods[..|mods| - 1];
      CollectStopsAtDeadEnd(g, isCss, init, timestamp);
      DeadEndSnoc(g, isCss, mods);
    }
  }

  lemma DeadEndSnoc(g: Shape, isCss: CssTest, mods: seq<NodeId>)
    requires Closed(g) && AllIn(g, mods) && mods != []
    ensures SomeDeadEnd(g, isCss, mods) <==>
              SomeDeadEnd(g, isCss, mods[..|mods| - 1])
              || PropagateFrom(g, isCss, mods[|mods| - 1]).deadEnd
  {
    var init := mods[..|mods| - 1];
    if SomeDeadEnd(g, isCss, init) {
      var k :| 0 <= k < |init| && PropagateFrom(g, isCss, init[k]).deadEnd;
      assert mods[k] == init[k];
    }
    if SomeDeadEnd(g, isCss, mods) {
      var k :| 0 <= k < |mods| && PropagateFrom(g, isCss, mods[k]).deadEnd;
      if k < |init| {
        assert mods[k] == init[k];
      }
    }
  }

  /** Otherwise the update carries every module's records in order. */
  lemma {:induction false} CollectConcatenates(g: Shape, isCss: CssTest, mods: seq<NodeId>,
                                               timestamp: int)
    requires Closed(g) && AllIn(g, mods)
    ensures Collect(g, isCss, mods, timestamp).Some? ==>
              Collect(g, isCss, mods, timestamp).value == AllRecords(g, isCss, mods, timestamp)
    decreases |mods|
  {
    if mods != [] {
      CollectConcatenates(g, isCss, mods[..|mods| - 1], timestamp);
      AllRecordsSnoc(g, isCss, mods, timestamp);
    }
  }

  /** `updateModules` sends a full reload exactly when a walk dead-ends. */
  lemma FullReloadIffDeadEnd(g: Shape, isCss: CssTest, mods: seq<NodeId>, timestamp: int)
    requires Closed(g) && AllIn(g, mods)
    ensures Dispatch(g, isCss, mods, timestamp) == FullReload(None) <==> SomeDeadEnd(g, isCss, mods)
    ensures Dispatch(g, isCss, mods, timestamp).Update? ==>
              Dispatch(g, isCss, mods, timestamp).updates == AllRecords(g, isCss, mods, timestamp)
  {
    CollectStopsAtDeadEnd(g, isCss, mods, timestamp);
    CollectConcatenates(g, isCss, mods, timestamp);
  }

  /** Each module of an update batch contributes at least one record, so an
      update for a non-empty batch is never empty. */
  lemma {:induction false} AllRecordsLength(g: Shape, isCss: CssTest, mods: seq<NodeId>,
                                            timestamp: int)
    requires Closed(g) && AllIn(g, mods) && !SomeDeadEnd(g, isCss, mods)
    ensures |AllRecords(g, isCss, mods, timestamp)| >= |mods|
    decreases |mods|
  {
    if mods != [] {
      assert !PropagateFrom(g, isCss, mods[0]).deadEnd;
      LiveWalkRecordsBoundary(g, isCss, mods[0], [mods[0]], []);
      forall k | 0 <= k < |mods[1..]|
        ensures !PropagateFrom(g, isCss, mods[1..][k]).deadEnd
      {
        assert mods[1..][k] == mods[k + 1];
      }
      AllRecordsLength(g, isCss, mods[1..], timestamp);
    }
  }

  lemma UpdateHasRecordPerModule(g: Shape, isCss: CssTest, mods: seq<NodeId>, timestamp: int)
    requires Closed(g) && AllIn(g, mods)
    ensures Dispatch(g, isCss, mods, timestamp).Update? ==>
              |Dispatch(g, isCss, mods, timestamp).updates| >= |mods|
  {
    FullReloadIffDeadEnd(g, isCss, mods, timestamp);
    if !SomeDeadEnd(g, isCss, mods) {
      AllRecordsLength(g, isCss, mods, timestamp);
    }
  }

  /** Every record of an update names a boundary that accepts the change
      and carries the batch's timestamp. */
  lemma {:induction false} CollectRecordsSound(g: Shape, isCss: CssTest, mods: seq<NodeId>,
                                               timestamp: int)
    requires Closed(g) && AllIn(g, mods)
    ensures var c := Collect(g, isCss, mods, timestamp);
            c.Some? ==> forall k :: 0 <= k < |c.value| ==> SoundRecord(g, c.value[k], timestamp)
    decreases |mods|
  {
    if mods != [] {
      CollectRecordsSound(g, isCss, mods[..|mods| - 1], timestamp);
      var w := PropagateFrom(g, isCss, mods[|mods| - 1]);
      forall k | 0 <= k < |w.boundaries|
        ensures SoundRecord(g, Records(g, w.boundaries, timestamp)[k], timestamp)
      {
        assert Sound(g, w.boundaries[k]);
      }
    }
  }

  /** A record that some sound boundary would produce. */
  ghost predicate SoundRecord(g: Shape, r: UpdateRecord, timestamp: int) {
    exists b :: Sound(g, b) && r == Record(g, b, timestamp)
  }
}
