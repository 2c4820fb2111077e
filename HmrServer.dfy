/**
 * The dev server state the HMR engine reads and writes: the module graph,
 * the file-to-modules index and the keys of the glob-import table. Its
 * methods are `invalidate`, `updateModules`, `handleHMRUpdate` and
 * `handleFileAddUnlink`; each is proved against the functions and
 * predicates of the modules it imports.
 */
module Hmr {
  import opened Wrappers
  import opened Strings
  import opened ModuleGraph
  import opened Propagation
  import opened Invalidation
  import opened UpdateDispatch
  import opened HmrEvents

  class DevServer {
    const config: Config
    const host: Host
    var nodes: Graph
    var fileIndex: map<string, seq<NodeId>>
    var globImporters: set<string>

    constructor(config: Config, host: Host, nodes: Graph, fileIndex: map<string, seq<NodeId>>,
                globImporters: set<string>)
      ensures this.config == config && this.host == host && this.nodes == nodes
      ensures this.fileIndex == fileIndex && this.globImporters == globImporters
    {
      this.config := config;
      this.host := host;
      this.nodes := nodes;
      this.fileIndex := fileIndex;
      this.globImporters := globImporters;
    }

    /**
     * `invalidate(mod, timestamp, seen)`. The `seen` Set is passed in and
     * handed back grown by `Spread`; exactly the modules added to it are
     * stamped and lose their caches (see `SpreadExact` for which those are).
     */
    method Invalidate(mod: NodeId, timestamp: int, seen: set<NodeId>) returns (seen': set<NodeId>)
      requires Closed(ShapeOf(nodes)) && mod in nodes
      modifies this`nodes
      ensures seen' == Spread(ShapeOf(old(nodes)), mod, seen)
      ensures nodes == Stamp(old(nodes), seen' - seen, timestamp)
      decreases nodes.Keys - seen
    {
      ghost var g0 := nodes;
      ghost var g := ShapeOf(nodes);
      if mod in seen {
        StampNothing(nodes, timestamp);
        return seen;
      }
      seen' := seen + {mod};
      nodes := nodes[mod := Invalidated(nodes[mod], timestamp)];
      assert seen' - seen == {mod};
      assert nodes == Stamp(g0, seen' - seen, timestamp);
      var importers := nodes[mod].info.importers;
      var k := 0;
      while k < |importers|
        invariant 0 <= k <= |importers| && importers == g[mod].importers
        invariant seen + {mod} <= seen'
        invariant nodes == Stamp(g0, seen' - seen, timestamp)
        invariant SpreadImporters(g, mod, k, seen') == SpreadImporters(g, mod, 0, seen + {mod})
      {
        var i := importers[k];
        StampKeepsShape(g0, seen' - seen, timestamp);
        if mod !in nodes[i].info.acceptedHmrDeps {
          ghost var before := seen';
          seen' := Invalidate(i, timestamp, seen');
          StampTwice(g0, before - seen, seen' - before, timestamp);
          assert (before - seen) + (seen' - before) == seen' - seen;
        }
        k := k + 1;
      }
    }

    /**
     * `updateModules(file, modules, timestamp)`: invalidates every module of
     * the batch with one shared Set, walks each module until the first dead
     * end, and returns the one message it sends.
     */
    method UpdateModules(modules: seq<NodeId>, timestamp: int)
      returns (payload: HmrPayload, invalidated: set<NodeId>)
      requires Closed(ShapeOf(nodes)) && AllIn(ShapeOf(nodes), modules)
      modifies this`nodes
      ensures invalidated == SpreadAll(ShapeOf(old(nodes)), modules)
      ensures nodes == Stamp(old(nodes), invalidated, timestamp)
      ensures payload == Dispatch(ShapeOf(old(nodes)), host.isCssRequest, modules, timestamp)
    {
      ghost var g0 := nodes;
      ghost var g := ShapeOf(nodes);
      var updates: seq<UpdateRecord> := [];
      invalidated := {};
      var needFullReload := false;
      StampNothing(g0, timestamp);
      var k := 0;
      while k < |modules|
        invariant 0 <= k <= |modules|
        invariant invalidated == SpreadAll(g, modules[..k])
        invariant nodes == Stamp(g0, invalidated, timestamp)
        invariant Collect(g, host.isCssRequest, modules[..k], timestamp)
                  == (if needFullReload then None else Some(updates))
      {
        var mod := modules[k];
        assert modules[..k + 1][..k] == modules[..k];
        StampKeepsShape(g0, invalidated, timestamp);
        ghost var before := invalidated;
        invalidated := Invalidate(mod, timestamp, invalidated);
        StampTwice(g0, before, invalidated - before, timestamp);
        assert before + (invalidated - before) == invalidated;
        StampKeepsShape(g0, invalidated, timestamp);
        if !needFullReload {
          var hasDeadEnd, boundaries := PropagateUpdate(ShapeOf(nodes), host.isCssRequest, mod,
                                                        [mod], []);
          if hasDeadEnd {
            needFullReload := true;
          } else {
            updates := updates + Records(ShapeOf(nodes), boundaries, timestamp);
          }
        }
        k := k + 1;
      }
      assert modules[..k] == modules;
      if needFullReload {
        payload := FullReload(None);
      } else {
        payload := Update(updates);
      }
    }

    /**
     * `handleHMRUpdate(file, content)`, with `Date.now()` passed in as
     * `timestamp`. The decision is `HandleOutcome`; only an event that
     * reaches `updateModules` changes the graph.
     */
    method HandleHmrUpdate(file: string, content: string, timestamp: int) returns (outcome: Outcome)
      requires Closed(ShapeOf(nodes))
      requires TargetInGraph(ShapeOf(nodes), config, host, fileIndex, file, content, timestamp)
      modifies this`nodes
      ensures outcome
              == HandleOutcome(ShapeOf(old(nodes)), config, host, fileIndex, file, content, timestamp)
      ensures nodes == Stamp(old(nodes),
                             Invalidates(ShapeOf(old(nodes)),
                                         UpdateTarget(config, host, fileIndex, file, content, timestamp)),
                             timestamp)
    {
      StampNothing(nodes, timestamp);
      if Restarts(config, host, file) {
        return Restart;
      }
      if InClientDir(host, file) {
        return Sent(FullReload(Some("*")));
      }
      var ctx := HmrContext(file, timestamp, Lookup(fileIndex, file), content);
      ghost var ctx0 := ctx;
      for k := 0 to |config.plugins|
        invariant RunHooks(config.plugins[k..], ctx) == RunHooks(config.plugins, ctx0)
      {
        var plugin := config.plugins[k];
        assert config.plugins[k..][1..] == config.plugins[k + 1..];
        if plugin.handleHotUpdate.Some? {
          var filteredModules := plugin.handleHotUpdate.value(ctx);
          if filteredModules.Some? {
            ctx := ctx.(modules := filteredModules.value);
          }
        }
      }
      assert config.plugins[|config.plugins|..] == [];
      if |ctx.modules| == 0 {
        if EndsWith(file, ".html") {
          outcome := Sent(FullReload(Some(HtmlReloadPath(config, host, file))));
        } else {
          outcome := NoMessage;
        }
        return;
      }
      var payload, _ := UpdateModules(ctx.modules, timestamp);
      outcome := Sent(payload);
    }

    /**
     * `handleFileAddUnlink(file, isUnlink)`, with `Date.now()` passed in as
     * `timestamp`: an unlink drops the file from the glob-import table; the
     * file's modules, if any, are updated as one batch.
     */
    method HandleFileAddUnlink(file: string, isUnlink: bool, timestamp: int)
      returns (sent: Option<HmrPayload>)
      requires Closed(ShapeOf(nodes)) && AllIn(ShapeOf(nodes), Lookup(fileIndex, file))
      modifies this`nodes, this`globImporters
      ensures globImporters == (if isUnlink then old(globImporters) - {file} else old(globImporters))
      ensures var mods := Lookup(fileIndex, file);
              sent == (if |mods| > 0
                       then Some(Dispatch(ShapeOf(old(nodes)), host.isCssRequest, mods, timestamp))
                       else None)
      ensures nodes == Stamp(old(nodes), SpreadAll(ShapeOf(old(nodes)), Lookup(fileIndex, file)),
                             timestamp)
    {
      var modules := Lookup(fileIndex, file);
      if isUnlink && file in globImporters {
        globImporters := globImporters - {file};
      }
      if |modules| > 0 {
        var payload, _ := UpdateModules(modules, timestamp);
        sent := Some(payload);
      } else {
        StampNothing(nodes, timestamp);
        sent := None;
      }
    }
  }
}
