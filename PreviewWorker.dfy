/**
 * The preview worker of src/vite/worker.ts: an in-memory file map seeded with
 * a demo page under `<BASE>vite/preview/`, answering PING_WORKER and
 * COMPILE_REQUEST messages. Its path helpers are in `WorkerPaths`.
 */
module PreviewWorker {
  import opened Wrappers
  import opened Strings
  import opened WorkerPaths
  import opened ContentTypes
  import opened Bus

  const IndexHtml :=
    "<!doctype html>\n<html><head><meta charset=\"utf-8\"><title>Preview</title></head>\n"
    + "<body>\n  <h1>Preview served by SW + Worker</h1>\n  <p id=\"from-app\"></p>\n"
    + "  <script type=\"module\" src=\"./app.js\"></script>\n</body></html>"

  const AppJs :=
    "document.getElementById('from-app').textContent =\n"
    + "   'Hello from app.js @ ' + new Date().toISOString();"

  /** `BASE`, from the build's `BASE_URL` (empty when unset). */
  function Base(baseUrl: string): string {
    Dir(OrSlash(baseUrl))
  }

  /** `VITE_PREFIX`. */
  function VitePrefix(baseUrl: string): string {
    Dir(PathJoin([Base(baseUrl), "vite"]))
  }

  /** `root`, the directory of the demo files. */
  function PreviewRoot(baseUrl: string): string {
    Dir(PathJoin([VitePrefix(baseUrl), "preview"]))
  }

  /** Where the demo page is stored. */
  function IndexKey(root: string): string {
    PathJoin([root, "index.html"])
  }

  /** Where the demo script is stored. */
  function AppKey(root: string): string {
    PathJoin([root, "app.js"])
  }

  /** The file map as seeded at start-up. */
  function Seeds(root: string): map<string, string> {
    map[][IndexKey(root) := IndexHtml][AppKey(root) := AppJs]
  }

  /**
   * The key a COMPILE_REQUEST looks up: a URL ending in `/preview/` is
   * rewritten to that directory's `index.html`, in `dir` shape and without a
   * trailing slash; any other URL is its own key.
   */
  function RequestKey(url: string): (key: string)
    ensures EndsWith(url, "/preview/") ==> key == Dir(url) + "index.html"
    ensures !EndsWith(url, "/preview/") ==> key == url
  {
    if EndsWith(url, "/preview/") then
      PreviewHasContent(url);
      PathJoinIndex(url);
      PathJoin([url, "index.html"])
    else url
  }

  lemma PreviewHasContent(url: string)
    requires EndsWith(url, "/preview/")
    ensures EndsWith(url, "/") && Slashless(url) != []
  {
    var stem := url[..|url| - 9];
    assert url == stem + "/preview/";
    SlashlessAppend(stem, "/preview/");
    assert Slashless("/preview/") == "preview";
  }

  class Worker {
    const base: string
    const vitePrefix: string
    const channelName: string
    const root: string
    var vfs: map<string, string>

    /** Start-up: the constants derived from `BASE_URL`, and the two demo
        files stored under the preview root. */
    constructor(baseUrl: string)
      ensures base == Base(baseUrl) && vitePrefix == VitePrefix(baseUrl)
      ensures channelName == vitePrefix + "bus" && root == PreviewRoot(baseUrl)
      ensures vfs == Seeds(root)
    {
      var b := Base(baseUrl);
      var prefix := VitePrefix(baseUrl);
      var r := PreviewRoot(baseUrl);
      base, vitePrefix, channelName, root := b, prefix, prefix + "bus", r;
      vfs := map[];
      new;
      vfs := Seeds(r);
    }

    /**
     * The message listener. A PING_WORKER is answered with PONG_WORKER; a
     * COMPILE_REQUEST with a WORKER_DEBUG naming the key looked up and
     * whether it is stored, then the COMPILE_RESPONSE for that key. Nothing
     * else is answered, and the file map is never changed.
     */
    method Handle(msg: Request) returns (replies: seq<Reply>)
      ensures msg.PingWorker? ==> replies == [PongWorker]
      ensures msg.CompileRequest? ==>
                var key := RequestKey(msg.url);
                replies == [WorkerDebug(key, key in vfs), Respond(vfs, msg.id, key)]
      ensures !msg.PingWorker? && !msg.CompileRequest? ==> replies == []
    {
      replies := [];
      if msg.PingWorker? {
        replies := replies + [PongWorker];
      }
      if msg.CompileRequest? {
        var key := RequestKey(msg.url);
        replies := replies + [WorkerDebug(key, key in vfs)];
        replies := replies + [Respond(vfs, msg.id, key)];
      }
    }
  }
}
