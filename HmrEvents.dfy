/**
 * How `handleHMRUpdate` classifies a file change before any graph work: a
 * configuration or env file restarts the server, a file of the client runtime
 * reloads every page, otherwise the file's modules, as rewritten by the
 * plugins' `handleHotUpdate` hooks, are updated, and a file with no modules
 * reloads the page only when it is HTML.
 */
module HmrEvents {
  import opened Wrappers
  import opened Strings
  import opened ModuleGraph
  import opened Invalidation
  import opened UpdateDispatch

  /** What a plugin hook is shown: the file, the batch timestamp, the
      modules chosen so far and the file's new content (`read()`). */
  datatype HmrContext = HmrContext(file: string, timestamp: int, modules: seq<NodeId>,
                                   content: string)

  /** A `handleHotUpdate` hook: `None` is a falsy result, which keeps the
      modules; `Some(m)` replaces them, even when `m` is empty. */
  type HotUpdateHook = HmrContext -> Option<seq<NodeId>>

  datatype Plugin = Plugin(name: string, handleHotUpdate: Option<HotUpdateHook>)

  /** The parts of the resolved configuration the engine reads.
      `envFileDisabled` is `inlineConfig.envFile === false`. */
  datatype Config = Config(
    root: string,
    configFile: Option<string>,
    configFileDependencies: seq<string>,
    envFileDisabled: bool,
    middlewareMode: bool,
    plugins: seq<Plugin>)

  /**
   * The host functions the engine calls: `path.resolve`, `path.relative`
   * (its posix and platform forms alike), `normalizePath`, `isCSSRequest`,
   * and the client directory after `normalizePath`.
   */
  datatype Host = Host(
    resolve: string -> string,
    relative: (string, string) -> string,
    normalizePath: string -> string,
    isCssRequest: string -> bool,
    clientDir: string)

  /** What one change event leads to: a server restart, one message to the
      clients, or nothing. */
  datatype Outcome = Restart | Sent(payload: HmrPayload) | NoMessage

  /** `getShortName`: the path relative to the root for a file under it,
      the file itself otherwise. */
  function ShortName(host: Host, file: string, root: string): (r: string)
    ensures StartsWith(file, root + "/") ==> r == host.relative(root, file)
    ensures !StartsWith(file, root + "/") ==> r == file
  {
    if StartsWith(file, root + "/") then host.relative(root, file) else file
  }

  /**
   * The short name loses nothing: when `relative` gives the path below the
   * root, the root and a slash put back in front of the short name give the
   * file again, and a file outside the root is its own short name.
   */
  lemma ShortNameRecoversFile(host: Host, file: string, root: string)
    requires StartsWith(file, root + "/") ==> root + "/" + host.relative(root, file) == file
    ensures var r := ShortName(host, file, root);
            file == (if StartsWith(file, root + "/") then root + "/" + r else r)
  {
  }

  /** Two env files that restart the server whenever env handling is on:
      `.env` itself and any `.env.<mode>` file. */
  lemma EnvFilesRestart(config: Config, host: Host, mode: string)
    requires !config.envFileDisabled
    ensures Restarts(config, host, ".env")
    ensures Restarts(config, host, ".env." + mode)
  {
    StartsWithConcat(".env.", mode);
  }

  /** With env handling off, a file that is neither the config file nor one
      of its resolved dependencies never restarts the server. */
  lemma DisabledEnvFilesDoNotRestart(config: Config, host: Host, file: string)
    requires config.envFileDisabled && config.configFile != Some(file)
    requires forall k :: 0 <= k < |config.configFileDependencies|
               ==> file != host.resolve(config.configFileDependencies[k])
    ensures !Restarts(config, host, file)
  {
  }

  /** Every resolved configuration dependency restarts the server. */
  lemma ConfigDependencyRestarts(config: Config, host: Host, k: nat)
    requires k < |config.configFileDependencies|
    ensures Restarts(config, host, host.resolve(config.configFileDependencies[k]))
  {
  }

  predicate IsConfigChange(config: Config, host: Host, file: string) {
    || config.configFile == Some(file)
    || exists k :: 0 <= k < |config.configFileDependencies|
                   && file == host.resolve(config.configFileDependencies[k])
  }

  predicate IsEnvFile(config: Config, file: string) {
    !config.envFileDisabled && (file == ".env" || StartsWith(file, ".env."))
  }

  predicate Restarts(config: Config, host: Host, file: string) {
    IsConfigChange(config, host, file) || IsEnvFile(config, file)
  }

  predicate InClientDir(host: Host, file: string) {
    StartsWith(file, host.clientDir)
  }

  /** One plugin's turn: a hook that returns a (truthy) list replaces the
      modules; a missing hook or a falsy result keeps them. */
  function ApplyHook(p: Plugin, ctx: HmrContext): (r: HmrContext)
    ensures r.file == ctx.file && r.timestamp == ctx.timestamp && r.content == ctx.content
    ensures p.handleHotUpdate.None? ==> r == ctx
    ensures p.handleHotUpdate.Some? && p.handleHotUpdate.value(ctx).None? ==> r == ctx
    ensures p.handleHotUpdate.Some? && p.handleHotUpdate.value(ctx).Some?
            ==> r == ctx.(modules := p.handleHotUpdate.value(ctx).value)
  {
    match p.handleHotUpdate
    case None => ctx
    case Some(hook) =>
      match hook(ctx)
      case None => ctx
      case Some(m) => ctx.(modules := m)
  }

  /** The plugins in order, each seeing the modules the previous left. */
  function RunHooks(plugins: seq<Plugin>, ctx: HmrContext): (r: HmrContext)
    ensures r.file == ctx.file && r.timestamp == ctx.timestamp && r.content == ctx.content
    decreases |plugins|
  {
    if plugins == [] then ctx else RunHooks(plugins[1..], ApplyHook(plugins[0], ctx))
  }

  /** Running two lists of plugins one after the other is running their
      concatenation. */
  lemma {:induction false} RunHooksAppend(ps: seq<Plugin>, qs: seq<Plugin>, ctx: HmrContext)
    ensures RunHooks(ps + qs, ctx) == RunHooks(qs, RunHooks(ps, ctx))
    decreases |ps|
  {
    if ps == [] {
      assert ps + qs == qs;
    } else {
      assert (ps + qs)[1..] == ps[1..] + qs;
      RunHooksAppend(ps[1..], qs, ApplyHook(ps[0], ctx));
    }
  }

  /** Plugins without a hook leave the file's modules as they are. */
  lemma {:induction false} NoHooksKeepModules(ps: seq<Plugin>, ctx: HmrContext)
    requires forall k :: 0 <= k < |ps| ==> ps[k].handleHotUpdate.None?
    ensures RunHooks(ps, ctx) == ctx
    decreases |ps|
  {
    if ps != [] {
      NoHooksKeepModules(ps[1..], ctx);
    }
  }

  /** Every plugin of `qs` has no hook or a hook with a falsy result on
      `ctx`, which is then the context each of them sees. */
  predicate AllPass(qs: seq<Plugin>, ctx: HmrContext) {
    forall k :: 0 <= k < |qs| ==>
      qs[k].handleHotUpdate.None? || qs[k].handleHotUpdate.value(ctx).None?
  }

  /** Plugins that all pass leave the context as it is. */
  lemma {:induction false} PassingHooksKeepContext(qs: seq<Plugin>, ctx: HmrContext)
    requires AllPass(qs, ctx)
    ensures RunHooks(qs, ctx) == ctx
    decreases |qs|
  {
    if qs != [] {
      assert AllPass(qs[1..], ctx) by {
        forall k | 0 <= k < |qs[1..]|
          ensures qs[1..][k].handleHotUpdate.None? || qs[1..][k].handleHotUpdate.value(ctx).None?
        {
          assert qs[1..][k] == qs[k + 1];
        }
      }
      PassingHooksKeepContext(qs[1..], ctx);
    }
  }

  /** The last plugin whose hook returns a list decides the modules: the
      plugins after it all pass on the context it leaves. */
  lemma LastHookDecides(ps: seq<Plugin>, p: Plugin, qs: seq<Plugin>, ctx: HmrContext,
                        m: seq<NodeId>)
    requires p.handleHotUpdate.Some?
    requires p.handleHotUpdate.value(RunHooks(ps, ctx)) == Some(m)
    requires AllPass(qs, RunHooks(ps, ctx).(modules := m))
    ensures RunHooks(ps + [p] + qs, ctx).modules == m
  {
    RunHooksAppend(ps, [p], ctx);
    RunHooksAppend(ps + [p], qs, ctx);
    PassingHooksKeepContext(qs, RunHooks(ps + [p], ctx));
  }

  /** `getModulesByFile(file)`, with no entry read as no modules. */
  function Lookup(index: map<string, seq<NodeId>>, file: string): seq<NodeId> {
    if file in index then index[file] else []
  }

  /** The modules the update covers once every hook has run. */
  function HookedModules(config: Config, index: map<string, seq<NodeId>>, file: string,
                         content: string, timestamp: int): seq<NodeId>
  {
    RunHooks(config.plugins, HmrContext(file, timestamp, Lookup(index, file), content)).modules
  }

  /** The modules handed to `updateModules`, when the event gets that far. */
  function UpdateTarget(config: Config, host: Host, index: map<string, seq<NodeId>>,
                        file: string, content: string, timestamp: int): (r: Option<seq<NodeId>>)
    ensures r.Some? ==> !Restarts(config, host, file) && !InClientDir(host, file) && r.value != []
    ensures !Restarts(config, host, file) && !InClientDir(host, file)
            && HookedModules(config, index, file, content, timestamp) != []
            ==> r == Some(HookedModules(config, index, file, content, timestamp))
  {
    if Restarts(config, host, file) || InClientDir(host, file) then None
    else
      var m := HookedModules(config, index, file, content, timestamp);
      if |m| == 0 then None else Some(m)
  }

  /** The reload path of an HTML file that no module matched. */
  function HtmlReloadPath(config: Config, host: Host, file: string): (r: string)
    ensures config.middlewareMode ==> r == "*"
    ensures !config.middlewareMode ==> StartsWith(r, "/")
  {
    if config.middlewareMode then "*"
    else "/" + host.normalizePath(host.relative(config.root, file))
  }

  /** The hook results that reach `updateModules` are nodes of the graph. */
  ghost predicate TargetInGraph(g: Shape, config: Config, host: Host,
                                index: map<string, seq<NodeId>>, file: string, content: string,
                                timestamp: int)
  {
    var t := UpdateTarget(config, host, index, file, content, timestamp);
    t.Some? ==> AllIn(g, t.value)
  }

  /** `handleHMRUpdate`: what one change event leads to. */
  function HandleOutcome(g: Shape, config: Config, host: Host, index: map<string, seq<NodeId>>,
                         file: string, content: string, timestamp: int): (r: Outcome)
    requires Closed(g) && TargetInGraph(g, config, host, index, file, content, timestamp)
    ensures r == Restart <==> Restarts(config, host, file)
    ensures var t := UpdateTarget(config, host, index, file, content, timestamp);
            t.Some? ==> r == Sent(Dispatch(g, host.isCssRequest, t.value, timestamp))
  {
    if Restarts(config, host, file) then Restart
    else if InClientDir(host, file) then Sent(FullReload(Some("*")))
    else
      var m := HookedModules(config, index, file, content, timestamp);
      if |m| == 0 then
        if EndsWith(file, ".html") then Sent(FullReload(Some(HtmlReloadPath(config, host, file))))
        else NoMessage
      else Sent(Dispatch(g, host.isCssRequest, m, timestamp))
  }

  /** The modules that a handled event invalidates: none unless it reaches
      `updateModules`. */
  function Invalidates(g: Shape, target: Option<seq<NodeId>>): (r: set<NodeId>)
    requires Closed(g) && (target.Some? ==> AllIn(g, target.value))
    ensures target.None? ==> r == {}
  {
    match target
    case None => {}
    case Some(mods) => SpreadAll(g, mods)
  }

  /** A configuration, configuration-dependency or env file restarts the
      server, even when it lies in the client directory. */
  lemma ConfigChangeRestarts(g: Shape, config: Config, host: Host,
                             index: map<string, seq<NodeId>>, file: string, content: string,
                             timestamp: int)
    requires Closed(g) && TargetInGraph(g, config, host, index, file, content, timestamp)
    requires Restarts(config, host, file)
    ensures HandleOutcome(g, config, host, index, file, content, timestamp) == Restart
    ensures UpdateTarget(config, host, index, file, content, timestamp) == None
  {
  }

  /** A file of the client runtime reloads every page, whatever its modules
      and the hooks say. */
  lemma ClientRuntimeReloadsAll(g: Shape, config: Config, host: Host,
                                index: map<string, seq<NodeId>>, file: string, content: string,
                                timestamp: int)
    requires Closed(g) && TargetInGraph(g, config, host, index, file, content, timestamp)
    requires !Restarts(config, host, file) && InClientDir(host, file)
    ensures HandleOutcome(g, config, host, index, file, content, timestamp)
            == Sent(FullReload(Some("*")))
  {
  }

  /** A file left with no modules reloads the page when it is HTML and is
      otherwise ignored. */
  lemma UnmatchedFile(g: Shape, config: Config, host: Host, index: map<string, seq<NodeId>>,
                      file: string, content: string, timestamp: int)
    requires Closed(g) && TargetInGraph(g, config, host, index, file, content, timestamp)
    requires !Restarts(config, host, file) && !InClientDir(host, file)
    requires HookedModules(config, index, file, content, timestamp) == []
    ensures HandleOutcome(g, config, host, index, file, content, timestamp)
            == if EndsWith(file, ".html")
               then Sent(FullReload(Some(HtmlReloadPath(config, host, file))))
               else NoMessage
  {
  }

  /**
   * The event reaches `updateModules` exactly when the message is one that
   * only the graph walk produces: an update, or a full reload without a path.
   */
  lemma GraphMessageIffUpdate(g: Shape, config: Config, host: Host,
                              index: map<string, seq<NodeId>>, file: string, content: string,
                              timestamp: int)
    requires Closed(g) && TargetInGraph(g, config, host, index, file, content, timestamp)
    ensures var r := HandleOutcome(g, config, host, index, file, content, timestamp);
            UpdateTarget(config, host, index, file, content, timestamp).Some?
            <==> r.Sent? && (r.payload.Update? || r.payload.path.None?)
  {
  }
}
