# Hot module replacement engine and in-browser preview bus, in Dafny

This project models two parts of an in-browser Vite setup.

**The HMR engine** (`browser-vite/.../server/hmr.ts`). When a file changes, the
dev server decides what to do:

- restart the server, for a configuration file or an env file;
- reload every page, for a file of the client runtime;
- otherwise, invalidate the file's modules and every importer that does not
  accept them (`invalidate`);
- walk up the importers of each changed module to the boundaries that accept
  the update (`propagateUpdate`);
- send exactly one message (`updateModules`): a full reload when some walk hit
  a dead end, otherwise one `update` record per boundary.

The module graph is an arena. A `map<NodeId, ModuleNode>` holds the nodes, and
edges are ids. Propagation reads only each node's `ModuleInfo`: URL, type,
importers, accepted dependencies and self-acceptance. Invalidation stamps the
timestamp and clears the three cached artifacts.

- `Propagate`, `Spread` and `Dispatch` are functions that define the walk, the
  invalidated set and the message.
- The dev server is a class, `Hmr.DevServer`. Its methods `Invalidate`,
  `UpdateModules`, `HandleHmrUpdate` and `HandleFileAddUnlink` update the graph
  in place. Each is proved to compute exactly what those functions define.
- Lemmas prove the properties of the functions:
  - a self-accepting module is always a boundary;
  - a module with no importers, or with only CSS importers, is a dead end;
  - every boundary really accepts the update;
  - a full reload is sent iff some walk is a dead end;
  - the invalidated set is exactly the modules reachable through importers
    that do not accept the change;
  - restarting, reloading everything and the HTML fallback each happen exactly
    when the source says.

**The preview bus** (`src/vite/worker.ts` and `src/main.ts`). A page registers
a service worker, starts a "bundler" worker and embeds an iframe. The service
worker forwards each fetch under `<BASE>vite/` to the bundler worker as a
`COMPILE_REQUEST`. The worker answers from an in-memory file system with a
`COMPILE_RESPONSE` that carries a body and a content type, or with a 404.

- The path helpers are proved against their intent:
  - `dir` and `pathJoin` in the standalone worker;
  - `normalizeBase` and `join` on the page.
- Both result kinds are shown to start or end with one slash, never to hold
  `//`, and to keep every non-slash character in order.
- The lemmas compute what the helpers give for the page's own paths.
- Two workers are modelled as classes, each with its message handler:
  - the standalone worker of `worker.ts`;
  - the inline worker embedded in `main.ts`, with `VFS_SET`.
- Lemmas show that both workers serve the iframe's URL as the seeded
  `index.html`, with the HTML content type. They also serve `app.js` as a
  script. For the standalone worker this holds under any absolute or empty
  `BASE_URL`, for the inline worker under any `BASE_URL`.
- Lemmas show that the two workers look up the same key for every directory
  URL and every URL not ending in `/preview/`, and so for the iframe URL under
  any absolute or empty `BASE_URL`.

The modules follow the source. `ModuleGraph`, `Propagation`, `Invalidation`,
`UpdateDispatch`, `HmrEvents` and `Hmr` model `hmr.ts`. `WorkerPaths` and
`PreviewWorker` model `worker.ts`. `MainPaths`, `PreviewPage` and `InlineWorker`
model `main.ts`. `ContentTypes` and `Bus` model the content-type table and the
bus messages that both workers share. `PreviewSite` relates the page to the
workers. `HmrScenarios` works small graphs through the engine. `Strings` and
`Wrappers` are helpers.

### Behaviour worth noting (the model follows the code)

- **Full reload after a dead end.** `updateModules` sends
  `{type: 'full-reload'}` with no path (`hmr.ts:143-145`), not `path: "*"`.
  `Dispatch` returns `FullReload(None)`.
- **Duplicate boundaries.** Boundaries are not deduplicated by
  `(boundary, acceptedVia)`. The Set holds a fresh object literal per
  discovery (`hmr.ts:202-205`, `hmr.ts:235-238`), so a diamond records the same
  boundary twice (`HmrScenarios.DiamondRecordsTwice`).
- **Self-accepting importer.** When a non-CSS module `C` is imported by a
  self-accepting `B` that does not list `C` as an accepted dependency, the
  update records `(B, B)`, not `(B, C)`
  (`HmrScenarios.SelfAcceptingImporterIsBoundary`).
- **Added or removed files.** These are not handled like modified files.
  `handleFileAddUnlink` skips the configuration, client-directory, plugin-hook
  and HTML checks, and only updates the file's modules (`hmr.ts:160-191`).
- **The two workers differ.** The inline worker of `main.ts` does not normalise
  its lookup key (`key += "index.html"`) and sends no `WORKER_DEBUG`.

## Model

| member | source | states |
|---|---|---|
| ModuleGraph.Invalidated | browser-vite/packages/vite/src/browser/server/hmr.ts:259-262 | invalidating a node sets its timestamp, clears its three caches and keeps its URL, type and edges |
| ModuleGraph.Stamp | browser-vite/packages/vite/src/browser/server/hmr.ts:254-262 | stamping a set of nodes keeps the node ids; each listed node is invalidated and every other node is unchanged |
| ModuleGraph.StampKeepsShape | browser-vite/packages/vite/src/browser/server/hmr.ts:259-262 | invalidation never changes what propagation reads (URLs, types, importers, acceptance) |
| ModuleGraph.StampTwice | browser-vite/packages/vite/src/browser/server/hmr.ts:263-267 | stamping one set and then another with the same timestamp is stamping their union, as the recursive calls share one `seen` Set |
| ModuleGraph.StampNothing | browser-vite/packages/vite/src/browser/server/hmr.ts:255-257 | stamping no node changes nothing, so an already seen module is left alone |
| Propagation.Propagate | browser-vite/packages/vite/src/browser/server/hmr.ts:193-252 | the walk keeps the boundaries it was given and adds only sound ones: self-accepting modules, or importers that accept the module they were reached through |
| Propagation.CssImporters | browser-vite/packages/vite/src/browser/server/hmr.ts:207-213 | the side walk over a self-accepting module's CSS importers not on the chain adds only sound boundaries |
| Propagation.Importers | browser-vite/packages/vite/src/browser/server/hmr.ts:232-251 | the importer loop adds only sound boundaries; an accepting importer is recorded, an importer on the chain is a dead end, a dead end below stops the loop |
| Propagation.ImporterOnChainIsDeadEnd | browser-vite/packages/vite/src/browser/server/hmr.ts:242-245 | an importer that does not accept the node and is already on the chain ends the loop as a dead end, with the boundaries so far |
| Propagation.DeadEndBelowStopsLoop | browser-vite/packages/vite/src/browser/server/hmr.ts:247-249 | when the walk from a non-accepting importer off the chain is a dead end, the loop returns that walk and skips the remaining importers |
| Propagation.AcceptingImporterRecorded | browser-vite/packages/vite/src/browser/server/hmr.ts:234-240 | an importer that accepts the node is recorded as `(importer, node)` and the loop goes on with the next importer |
| Propagation.PropagateFrom | browser-vite/packages/vite/src/browser/server/hmr.ts:118-122 | every boundary of a walk started from a fresh Set and the chain `[node]` is sound |
| Propagation.PropagateUpdate | browser-vite/packages/vite/src/browser/server/hmr.ts:193-252 | the imperative walk, with its two loops and recursion, returns exactly the dead-end flag and boundaries `Propagate` defines |
| Propagation.SelfAcceptingIsBoundary | browser-vite/packages/vite/src/browser/server/hmr.ts:201-216 | a self-accepting module records `(node, node)` first and is never a dead end, whatever its CSS importers give |
| Propagation.NoImportersIsDeadEnd | browser-vite/packages/vite/src/browser/server/hmr.ts:218-220 | a module that does not accept itself and has no importers is a dead end and records nothing |
| Propagation.CssOnlyImportersIsDeadEnd | browser-vite/packages/vite/src/browser/server/hmr.ts:225-230 | a non-CSS module whose importers are all CSS is a dead end and records nothing, whatever they accept |
| Propagation.NoAcceptorsMeansDeadEnd | browser-vite/packages/vite/src/browser/server/hmr.ts:232-251 | in a graph where no module accepts anything, every walk is a dead end and records no boundary |
| Propagation.NoAcceptorsImporters | browser-vite/packages/vite/src/browser/server/hmr.ts:232-251 | the importer loop in such a graph is a dead end and records no boundary |
| Propagation.LiveWalkRecordsBoundary | browser-vite/packages/vite/src/browser/server/hmr.ts:193-252 | a walk that is not a dead end has recorded at least one boundary |
| Propagation.LiveImportersRecordBoundary | browser-vite/packages/vite/src/browser/server/hmr.ts:232-251 | an importer loop that is not a dead end has recorded at least one boundary |
| Propagation.LiveWalkCoversAcceptors | browser-vite/packages/vite/src/browser/server/hmr.ts:232-240 | when the walk of a non-self-accepting module is not a dead end, every importer accepting it is recorded as `(importer, module)` |
| Propagation.ImportersCoverAcceptors | browser-vite/packages/vite/src/browser/server/hmr.ts:232-240 | a live importer loop records each remaining importer that accepts the module |
| Invalidation.ReachesSelf | browser-vite/packages/vite/src/browser/server/hmr.ts:255-258 | an unseen module reaches itself, so it is invalidated |
| Invalidation.ReachesThrough | browser-vite/packages/vite/src/browser/server/hmr.ts:263-267 | a module reaches everything reachable from an importer that does not accept it |
| Invalidation.ClosedSetHoldsReach | browser-vite/packages/vite/src/browser/server/hmr.ts:263-267 | a set that holds the start and is closed under non-accepting importers holds every module the start reaches |
| Invalidation.ReachesWithLess | browser-vite/packages/vite/src/browser/server/hmr.ts:255-257 | a module reachable while avoiding more is reachable while avoiding less |
| Invalidation.Spread | browser-vite/packages/vite/src/browser/server/hmr.ts:254-268 | the `seen` Set after `invalidate` contains the old one and the module, and adds only graph nodes |
| Invalidation.SpreadImporters | browser-vite/packages/vite/src/browser/server/hmr.ts:263-267 | the importer loop only grows `seen`, with graph nodes |
| Invalidation.SpreadExact | browser-vite/packages/vite/src/browser/server/hmr.ts:254-268 | the modules `invalidate` adds are exactly those reachable from the module through non-accepting importers without entering the old `seen`, and the new set is closed under that step |
| Invalidation.SpreadImportersFacts | browser-vite/packages/vite/src/browser/server/hmr.ts:263-267 | the importer loop adds only reachable modules and covers every remaining non-accepting importer |
| Invalidation.SpreadAll | browser-vite/packages/vite/src/browser/server/hmr.ts:109-113 | the batch's shared Set holds only graph nodes |
| Invalidation.SpreadAllClosed | browser-vite/packages/vite/src/browser/server/hmr.ts:109-113 | the batch's invalidated set is closed under non-accepting importers |
| Invalidation.SpreadAllSound | browser-vite/packages/vite/src/browser/server/hmr.ts:109-113 | every invalidated module is reachable from some module of the batch |
| Invalidation.SpreadAllComplete | browser-vite/packages/vite/src/browser/server/hmr.ts:109-113 | every module reachable from some module of the batch is invalidated |
| Invalidation.SpreadAllExact | browser-vite/packages/vite/src/browser/server/hmr.ts:109-113 | a module is invalidated iff it is reachable from a module of the batch (both directions) |
| UpdateDispatch.Record | browser-vite/packages/vite/src/browser/server/hmr.ts:128-135 | a record carries `<type>-update`, the timestamp, the boundary's URL and the accepted module's URL |
| UpdateDispatch.Records | browser-vite/packages/vite/src/browser/server/hmr.ts:128-135 | one record per boundary, in order |
| UpdateDispatch.Collect | browser-vite/packages/vite/src/browser/server/hmr.ts:112-136 | the loop state of `updateModules`; `CollectStopsAtDeadEnd` and `CollectConcatenates` state that it is a full reload iff some walk is a dead end, and otherwise every module's records in order |
| UpdateDispatch.Dispatch | browser-vite/packages/vite/src/browser/server/hmr.ts:138-157 | a full reload after a dead end carries no path |
| UpdateDispatch.AllRecordsSnoc | browser-vite/packages/vite/src/browser/server/hmr.ts:112-136 | the records of a batch are those of all but the last module followed by the last module's |
| UpdateDispatch.CollectStopsAtDeadEnd | browser-vite/packages/vite/src/browser/server/hmr.ts:114-126 | the loop state turns into "full reload" iff some module's walk is a dead end |
| UpdateDispatch.DeadEndSnoc | browser-vite/packages/vite/src/browser/server/hmr.ts:122-126 | a batch has a dead end iff its prefix has one or its last module's walk is one |
| UpdateDispatch.CollectConcatenates | browser-vite/packages/vite/src/browser/server/hmr.ts:128-135 | without a dead end the collected updates are every module's records concatenated in module order |
| UpdateDispatch.FullReloadIffDeadEnd | browser-vite/packages/vite/src/browser/server/hmr.ts:138-157 | the message is a full reload iff some walk is a dead end, otherwise an update holding every module's records in order |
| UpdateDispatch.AllRecordsLength | browser-vite/packages/vite/src/browser/server/hmr.ts:112-136 | without a dead end a batch yields at least one record per module |
| UpdateDispatch.UpdateHasRecordPerModule | browser-vite/packages/vite/src/browser/server/hmr.ts:153-156 | an `update` message has at least as many records as changed modules |
| UpdateDispatch.CollectRecordsSound | browser-vite/packages/vite/src/browser/server/hmr.ts:128-135 | every collected record names a boundary that really accepts the update and carries the batch timestamp |
| HmrEvents.ShortNameRecoversFile | browser-vite/packages/vite/src/browser/server/hmr.ts:15-17 | when `relative` gives the path below the root, `root + "/"` followed by the short name is the file again; a file outside the root is its own short name |
| HmrEvents.ApplyHook | browser-vite/packages/vite/src/browser/server/hmr.ts:68-77 | a hook keeps the file, timestamp and content; a missing hook or a falsy result keeps the context; a returned list replaces the modules |
| HmrEvents.RunHooks | browser-vite/packages/vite/src/browser/server/hmr.ts:68-77 | running the hooks keeps the file, timestamp and content |
| HmrEvents.RunHooksAppend | browser-vite/packages/vite/src/browser/server/hmr.ts:68-77 | running two plugin lists in turn is running their concatenation |
| HmrEvents.NoHooksKeepModules | browser-vite/packages/vite/src/browser/server/hmr.ts:68-77 | plugins without a hook leave the file's modules unchanged |
| HmrEvents.PassingHooksKeepContext | browser-vite/packages/vite/src/browser/server/hmr.ts:68-77 | plugins that each have no hook or return a falsy result leave the context, and so the modules, unchanged |
| HmrEvents.LastHookDecides | browser-vite/packages/vite/src/browser/server/hmr.ts:68-77 | the last hook that returns a list decides the modules, even an empty list, when every later plugin has no hook or a falsy result |
| HmrEvents.UpdateTarget | browser-vite/packages/vite/src/browser/server/hmr.ts:27-99 | modules reach `updateModules` exactly for a non-restarting file outside the client directory with a non-empty hooked module list, and they are that list |
| HmrEvents.Invalidates | browser-vite/packages/vite/src/browser/server/hmr.ts:99 | an event that does not reach `updateModules` invalidates nothing |
| HmrEvents.HandleOutcome | browser-vite/packages/vite/src/browser/server/hmr.ts:19-100 | the server restarts exactly for a restarting file; an event that reaches `updateModules` sends `Dispatch` of its modules |
| HmrEvents.HtmlReloadPath | browser-vite/packages/vite/src/browser/server/hmr.ts:84-95 | the HTML reload path is `*` in middleware mode and otherwise an absolute path |
| HmrEvents.Restarts | browser-vite/packages/vite/src/browser/server/hmr.ts:27-45 | a restart is a config change or an env file; `EnvFilesRestart`, `DisabledEnvFilesDoNotRestart` and `ConfigDependencyRestarts` state when |
| HmrEvents.IsConfigChange | browser-vite/packages/vite/src/browser/server/hmr.ts:27-30 | the config file or a resolved config dependency; `ConfigDependencyRestarts` states it for each dependency |
| HmrEvents.IsEnvFile | browser-vite/packages/vite/src/browser/server/hmr.ts:31-34 | `.env` or `.env.*` unless env files are disabled; `EnvFilesRestart` and `DisabledEnvFilesDoNotRestart` state both cases |
| HmrEvents.EnvFilesRestart | browser-vite/packages/vite/src/browser/server/hmr.ts:31-45 | with env handling on, `.env` and every `.env.<mode>` file restart the server |
| HmrEvents.DisabledEnvFilesDoNotRestart | browser-vite/packages/vite/src/browser/server/hmr.ts:31-45 | with env handling off, a file that is not the config file or a resolved dependency never restarts the server |
| HmrEvents.ConfigDependencyRestarts | browser-vite/packages/vite/src/browser/server/hmr.ts:28-30 | every resolved config dependency restarts the server |
| HmrEvents.ConfigChangeRestarts | browser-vite/packages/vite/src/browser/server/hmr.ts:27-45 | a config, config-dependency or env file restarts the server and walks no graph, even inside the client directory |
| HmrEvents.ClientRuntimeReloadsAll | browser-vite/packages/vite/src/browser/server/hmr.ts:49-56 | any other file of the client directory sends `full-reload` with path `*` |
| HmrEvents.UnmatchedFile | browser-vite/packages/vite/src/browser/server/hmr.ts:79-97 | a file left with no modules reloads its page when it is HTML (`*` in middleware mode) and sends nothing otherwise |
| HmrEvents.GraphMessageIffUpdate | browser-vite/packages/vite/src/browser/server/hmr.ts:79-99 | the event reaches `updateModules` iff the outcome is an update or a path-less full reload |
| Hmr.DevServer.constructor | browser-vite/packages/vite/src/browser/server/hmr.ts:24 | the server holds the given config, host functions, graph, file index and glob table |
| Hmr.DevServer.Invalidate | browser-vite/packages/vite/src/browser/server/hmr.ts:254-268 | the returned `seen` is `Spread` of the old graph, and exactly the newly seen modules are stamped |
| Hmr.DevServer.UpdateModules | browser-vite/packages/vite/src/browser/server/hmr.ts:102-158 | the batch invalidates `SpreadAll`, stamps exactly those modules and sends `Dispatch` of the graph as it was |
| Hmr.DevServer.HandleHmrUpdate | browser-vite/packages/vite/src/browser/server/hmr.ts:19-100 | the outcome is `HandleOutcome` and the graph is stamped exactly on the modules that outcome invalidates |
| Hmr.DevServer.HandleFileAddUnlink | browser-vite/packages/vite/src/browser/server/hmr.ts:160-191 | an unlink drops the file from the glob table; a file with modules sends `Dispatch` of them and stamps `SpreadAll`; a file without sends nothing and changes nothing |
| HmrScenarios.CycleIsDeadEnd | browser-vite/packages/vite/src/browser/server/hmr.ts:242-245 | a two-module import cycle with no acceptor is a dead end and sends a path-less full reload |
| HmrScenarios.SelfAcceptingImporterIsBoundary | browser-vite/packages/vite/src/browser/server/hmr.ts:201-216 | a change under a self-accepting importer records `(B, B)` and sends one `js-update` for it |
| HmrScenarios.AcceptingImporterIsBoundary | browser-vite/packages/vite/src/browser/server/hmr.ts:234-240 | an importer that accepts the changed module records `(B, A)` and sends one `js-update` accepted via `A` |
| HmrScenarios.DiamondRecordsTwice | browser-vite/packages/vite/src/browser/server/hmr.ts:118-135 | a diamond under one self-accepting top records the same boundary twice and sends two identical records |
| Strings.CollapseSlashes | src/vite/worker.ts:3 | `replace(/\/+/g, '/')` leaves no `//`, keeps the non-slash characters and the first and last characters, and leaves a string without `//` unchanged |
| Strings.CollapseIdempotent | src/main.ts:11 | collapsing slashes twice is collapsing them once |
| Strings.StripLeading | src/main.ts:14 | `b.replace(/^\/+/, "")` removes exactly the leading run of slashes |
| Strings.TrimTrailing | src/vite/worker.ts:7 | `replace(/\/+$/, '')` removes exactly the trailing run of slashes |
| Strings.OrSlash | src/vite/worker.ts:10 | an empty `BASE_URL` falls back to `/`; any other is kept |
| WorkerPaths.Dir | src/vite/worker.ts:2-5 | `dir` starts and ends with one slash, holds no `//` and keeps the path's non-slash characters in order |
| WorkerPaths.DirIdempotent | src/vite/worker.ts:2-5 | `dir` of a directory is that directory |
| WorkerPaths.StripSegment | src/vite/worker.ts:7 | a segment after stripping has no slash at either end and keeps its content |
| WorkerPaths.Segments | src/vite/worker.ts:7 | the non-empty stripped segments keep the content of all segments |
| WorkerPaths.PathJoin | src/vite/worker.ts:6-8 | `pathJoin` starts with a slash, holds no `//`, ends with a slash only when it is `/`, and keeps all segment content in order |
| WorkerPaths.PathJoinFile | src/vite/worker.ts:21 | joining a file name onto a non-root directory path is `dir(path) + name` |
| WorkerPaths.PathJoinIndex | src/vite/worker.ts:41 | joining `index.html` onto a URL ending in `/` is `dir(url) + "index.html"` |
| WorkerPaths.DirOfClean | src/vite/worker.ts:18 | `dir` of a clean absolute path without a trailing slash appends one slash |
| WorkerPaths.DirOfDir | src/vite/worker.ts:11 | `dir` of a clean directory path is itself |
| WorkerPaths.PathJoinOntoDir | src/vite/worker.ts:21-29 | joining a slash-free name onto a directory is plain concatenation |
| WorkerPaths.SubDir | src/vite/worker.ts:11 | `dir(pathJoin(x, seg))` is `x + seg + "/"`, again a directory |
| MainPaths.NormalizeBase | src/main.ts:10-12 | `normalizeBase` ends with a slash, holds no `//`, keeps the first character and the non-slash characters |
| MainPaths.NormalizeBaseIdempotent | src/main.ts:10-12 | normalising twice is normalising once |
| MainPaths.CollapseTrailing | src/main.ts:14 | `a.replace(/\/+$/, "/")` keeps whether `a` ends in a slash and its non-slash characters |
| MainPaths.Join | src/main.ts:13-15 | `join` ends with a slash, holds no `//`, and keeps the content of `a` followed by that of `b` |
| MainPaths.JoinOnDirectory | src/main.ts:13-15 | joining onto a path ending in `/` is normalising the plain concatenation |
| MainPaths.JoinCleanDirectories | src/main.ts:7 | joining a clean relative directory onto a clean directory is concatenation |
| MainPaths.NormalizeClean | src/main.ts:10-12 | a clean directory path is already normal |
| MainPaths.JoinWithoutTrailingSlash | src/main.ts:13-15 | onto a path not ending in `/`, `join` adds no separator |
| MainPaths.JoinGluesWithoutSeparator | src/main.ts:13-15 | joining a relative directory onto a path without a trailing slash glues the two with no `/` between |
| MainPaths.JoinSubdir | src/main.ts:168 | joining `seg/` onto a clean directory is concatenation |
| MainPaths.JoinFile | src/main.ts:134 | joining a file name onto a clean directory yields the file's path plus a trailing `/` |
| ContentTypes.ContentTypeByExtension | src/vite/worker.ts:62-68 | a path ending in `.html`, `.js`, `.mjs`, `.css` or `.json` gets that extension's type |
| ContentTypes.TableAgrees | src/vite/worker.ts:62-68 | each of the five extensions, taken on its own, gets its table entry |
| ContentTypes.ContentType | src/main.ts:42-48 | `contentType`; `ContentTypeByExtension` and `ContentTypeFallback` state that a known suffix selects its table entry and anything else is plain text |
| ContentTypes.KnownExtension | src/main.ts:42-48 | the extension table's keys are exactly the five tested suffixes |
| ContentTypes.ContentTypeFallback | src/vite/worker.ts:67 | the plain-text type is returned iff no known suffix matches |
| ContentTypes.ContentTypeOfName | src/vite/worker.ts:62-68 | the type depends only on the last five characters, so a directory prefix never changes it |
| ContentTypes.DemoFileTypes | src/vite/worker.ts:57 | `index.html` is HTML and `app.js` is JavaScript |
| Bus.Respond | src/vite/worker.ts:46-58 | a found key answers 200 with the body and the key's content type; a missing key answers 404 with neither; the id is echoed |
| Bus.RespondFound | src/main.ts:86-92 | a stored file is answered with `ok`, 200, its body and its content type |
| Bus.RespondByExtension | src/main.ts:91 | a stored file with a known extension is answered with that extension's type |
| PreviewWorker.RequestKey | src/vite/worker.ts:40-41 | a URL ending in `/preview/` looks up `dir(url) + "index.html"`; any other URL is looked up as it is |
| PreviewWorker.PreviewHasContent | src/vite/worker.ts:41 | a URL ending in `/preview/` is a directory with content |
| PreviewWorker.Worker.constructor | src/vite/worker.ts:10-32 | BASE, VITE_PREFIX, the channel, the root and the two seeded files as the source computes them |
| PreviewWorker.Worker.Handle | src/vite/worker.ts:34-60 | PING gets PONG; COMPILE gets WORKER_DEBUG with the key and its presence, then the response for that key; anything else gets nothing |
| PreviewPage.PageBase | src/main.ts:6 | BASE ends with a slash, holds no `//` and keeps the content of `BASE_URL` |
| PreviewPage.ServiceWorkerScript | src/main.ts:2 | the intended script URL starts with the scope, ends with `/sw.js` and has no trailing slash |
| PreviewPage.PagePrefixShape | src/main.ts:7 | VITE_PREFIX is BASE followed by `vite/` |
| PreviewPage.IframeSrcShape | src/main.ts:168 | the iframe URL is VITE_PREFIX followed by `preview/` and ends with `/preview/` |
| PreviewPage.IframeSrc | src/main.ts:168 | `join(VITE_PREFIX, "preview/")`; `IframeSrcShape` states that it is VITE_PREFIX + `preview/` |
| PreviewPage.ServiceWorkerUrl | src/main.ts:134 | the registered script URL as written; `ServiceWorkerUrlIsDirectory` states that it is the script URL plus `/` |
| PreviewPage.PagePrefix | src/main.ts:7 | `join(BASE, "vite/")`; `PagePrefixShape` states that it is BASE + `vite/` |
| PreviewPage.ChannelName | src/main.ts:8 | VITE_PREFIX followed by `bus`; `PrefixesAgree` states that the worker uses the same name |
| PreviewPage.ServiceWorkerUrlIsDirectory | src/main.ts:134 | `join(VITE_PREFIX, "sw.js")` is the script URL plus a trailing `/`, so never the script URL |
| PreviewPage.RootServiceWorkerUrl | src/main.ts:134 | with `BASE_URL` `/` the page registers `/vite/sw.js/` where `/vite/sw.js` was meant |
| InlineWorker.SetAllKeys | src/main.ts:72-74 | after `VFS_SET` the file system holds the old paths plus every pushed path |
| InlineWorker.SetAll | src/main.ts:72-74 | the file map after `vfs.set` for each entry in turn; `SetAllKeys`, `SetAllLastWins` and `SetAllUntouched` state its keys and bodies |
| InlineWorker.SetAllLastWins | src/main.ts:72-74 | a pushed path holds the body of its last entry |
| InlineWorker.SetAllUntouched | src/main.ts:72-74 | a path not pushed keeps its old body |
| InlineWorker.InlineKey | src/main.ts:83-84 | a URL ending in `/preview/` looks up the URL plus `index.html`; any other URL as it is |
| InlineWorker.Worker.constructor | src/main.ts:34-39 | the worker holds the BASE, VITE_PREFIX and channel name baked into its source, over an empty file system |
| InlineWorker.Worker.Start | src/main.ts:33-66 | a fresh worker built from the page's BASE, VITE_PREFIX and channel name, whose file system holds exactly the two demo files under VITE_PREFIX + `preview/` |
| InlineWorker.Worker.LoadDemoFiles | src/main.ts:51-65 | `loadDemoFiles` sets `index.html` and `app.js` under the preview root |
| InlineWorker.Worker.SetFiles | src/main.ts:72-74 | the loop leaves the file system as `SetAll` of the old one and the entries |
| InlineWorker.Worker.Compile | src/main.ts:80-93 | the reply is the response for `InlineKey(url)` |
| InlineWorker.Worker.Handle | src/main.ts:69-94 | VFS_SET with files stores them and gets VFS_OK; PING gets PONG; COMPILE gets the response for its key; nothing else changes or answers |
| InlineWorker.PushedFileServed | src/main.ts:71-93 | a file pushed by VFS_SET is then served with 200, its last body and its type |
| PreviewSite.NormalizeIsDir | src/main.ts:10-12 | for an absolute path the page's `normalizeBase` and the worker's `dir` agree |
| PreviewSite.BasesAgree | src/vite/worker.ts:10 | the page's BASE and the worker's BASE are the same directory for an absolute or empty `BASE_URL` |
| PreviewSite.PrefixesAgree | src/vite/worker.ts:11-12 | page and worker agree on VITE_PREFIX and the channel name |
| PreviewSite.RootsAgree | src/vite/worker.ts:18 | the iframe URL is the worker's preview root |
| PreviewSite.SeedKey | src/vite/worker.ts:21-29 | a seeded file's key is its plain path and is looked up as it is |
| PreviewSite.SeededKeys | src/vite/worker.ts:21-29 | the seeded keys are root + `index.html` and root + `app.js`, typed HTML and JavaScript |
| PreviewSite.SeededFiles | src/vite/worker.ts:21-32 | the worker's file system holds both seeded bodies under those keys |
| PreviewSite.IframeKey | src/vite/worker.ts:40-41 | the iframe URL is looked up as the seeded `index.html` |
| PreviewSite.WorkerServesIframe | src/vite/worker.ts:39-58 | the worker answers the iframe's request with 200, the seeded page and the HTML type |
| PreviewSite.WorkerServesScript | src/vite/worker.ts:39-58 | the worker answers `app.js` with 200, the seeded script and the JavaScript type |
| PreviewSite.DemoFiles | src/main.ts:51-65 | the inline demo files sit at VITE_PREFIX + `preview/index.html` and `.../app.js` with their bodies |
| PreviewSite.InlineServesIframe | src/main.ts:80-92 | the inline worker answers the iframe's URL with 200, the demo page and the HTML type, for any `BASE_URL` |
| PreviewSite.InlineServesScript | src/main.ts:80-92 | the inline worker answers `app.js` with 200, the demo script and the JavaScript type |
| PreviewSite.KeysAgree | src/main.ts:83-84 | for a directory URL, or one not ending in `/preview/`, both workers look up the same key |
| PreviewSite.IframeKeysAgree | src/main.ts:83-84 | both workers look up the same key for the iframe URL |

## Left out

- Logging, `debugHmr` and the colour formatting of messages are not modelled; they do not affect what is sent.
- `ws.send` is not modelled as a transport: the payload is returned instead.
- `server.restart()` is returned as the `Restart` outcome.
- `Date.now()` is a parameter (`timestamp`).
- `getShortName` only feeds the `file` argument that `updateModules` writes to its log lines, which are not modelled. ShortNameRecoversFile assumes that `relative` gives the path below the root, since `path.posix.relative` is host code.
- `path.resolve`, `path.relative`, `normalizePath`, `isCSSRequest` and the client directory are parameters. They are regular expressions and Node path code outside this model.
- The plugin hooks are modelled as total functions. A hook that throws, or that is asynchronous, is not modelled; the source awaits each hook in turn.
- The commented-out glob matching in `handleFileAddUnlink` is not modelled: it is dead code. `_globImporters` is modelled as its set of keys.
- The module graph's own construction (`getModulesByFile`, `onFileChange`, the URL and file maps) is not part of this model. The file index is a map from file to node ids.
- Module identity is a node id. JavaScript object identity of nodes is the id, and `importers`, an insertion-ordered Set, is a sequence; nothing in the model depends on it holding no duplicates.
- The DOM, the page UI, service-worker registration, `waitFor` and the `WORKER_READY` announcements are not modelled; the page's `BroadcastChannel` is not modelled either.
- The service worker script itself is not part of this model.
- Blob and Worker creation are not modelled. The inline worker's embedded constants are the page's values.
- `String(msg.url)` and `String(body)` are not modelled: URLs and bodies are strings already.
- Request ids are integers. `msg.files` is `None` when it is missing or not an object.
- `Object.entries` order is the order of the given entry sequence.
- The `new Date().toISOString()` inside the seeded `app.js` bodies is template text in a string, so the bodies are constants.
- PreviewSite.BasesAgree: states agreement only for an absolute or empty `BASE_URL`. With a relative one such as `repo/`, the page's BASE has no leading slash but the worker's has, so the two differ.
- PreviewSite.PrefixesAgree: restricted to an absolute or empty `BASE_URL`, for the same reason.
- PreviewSite.RootsAgree: restricted to an absolute or empty `BASE_URL`, for the same reason.
- PreviewSite.WorkerServesIframe: restricted to an absolute or empty `BASE_URL`, for the same reason.
- PreviewSite.WorkerServesScript: restricted to an absolute or empty `BASE_URL`, for the same reason.
- PreviewSite.IframeKey: restricted to an absolute or empty `BASE_URL`, for the same reason.
- PreviewSite.IframeKeysAgree: restricted to an absolute or empty `BASE_URL`, for the same reason.

## Findings

| source | as written | input that shows it | evidently intended | confidence | as-written member | corrected member |
|---|---|---|---|---|---|---|
| src/main.ts:134 | `join(VITE_PREFIX, "sw.js")` always ends with a slash, because `join` goes through `normalizeBase` | `BASE_URL` `/` registers `/vite/sw.js/` | `<BASE>vite/sw.js`, as the comments on lines 2 and 133 say | not executed | PreviewPage.ServiceWorkerUrlIsDirectory | PreviewPage.ServiceWorkerScript |
