/**
 * The worker the host page embeds as source text (src/main.ts, lines 33-98):
 * an in-memory file map seeded with a demo page under
 * `<VITE_PREFIX>preview/`, extended by VFS_SET messages, and answering
 * PING_WORKER and COMPILE_REQUEST. The page bakes its own `BASE`,
 * `VITE_PREFIX` and `CHANNEL_NAME` into the source, so the worker is built
 * from the page's base URL.
 */
module InlineWorker {
  import opened Wrappers
  import opened Strings
  import opened ContentTypes
  import opened Bus
  import opened PreviewPage

  const DemoIndexHtml :=
    "<!doctype html>\n<html><head><meta charset=\"utf-8\"><title>Preview</title></head>\n"
    + "<body>\n  <h1>Preview served by SW+Worker</h1>\n  <p id=\"from-app\"></p>\n"
    + "  <script type=\"module\" src=\"./app.js\"></script>\n</body></html>"

  const DemoAppJs :=
    "\n      document.getElementById('from-app').textContent =\n"
    + "        'Hello from app.js @ ' + new Date().toISOString();\n"
    + "      console.log('app.js loaded');\n    "

  /** `root` in `loadDemoFiles`: plain concatenation onto the prefix. */
  function DemoRoot(vitePrefix: string): string {
    vitePrefix + "preview/"
  }

  /** The file map after `loadDemoFiles` on an empty map. */
  function DemoFiles(vitePrefix: string): map<string, string> {
    map[][DemoRoot(vitePrefix) + "index.html" := DemoIndexHtml]
         [DemoRoot(vitePrefix) + "app.js" := DemoAppJs]
  }

  /** The file map after `vfs.set(path, body)` for each entry in turn. */
  function SetAll(files: map<string, string>, entries: seq<(string, string)>): map<string, string> {
    if entries == [] then files
    else
      var last := entries[|entries| - 1];
      SetAll(files, entries[..|entries| - 1])[last.0 := last.1]
  }

  /** The paths stored after a VFS_SET: the old ones and every entry's. */
  lemma {:induction false} SetAllKeys(files: map<string, string>, entries: seq<(string, string)>, path: string)
    ensures path in SetAll(files, entries)
            <==> path in files || exists i :: 0 <= i < |entries| && entries[i].0 == path
  {
    if entries != [] {
      var init := entries[..|entries| - 1];
      SetAllKeys(files, init, path);
      if exists i :: 0 <= i < |init| && init[i].0 == path {
        var i :| 0 <= i < |init| && init[i].0 == path;
        assert entries[i] == init[i];
      }
      if exists i :: 0 <= i < |entries| && entries[i].0 == path {
        var i :| 0 <= i < |entries| && entries[i].0 == path;
        if i < |init| {
          assert init[i] == entries[i];
        }
      }
    }
  }

  /** When a path occurs more than once in a VFS_SET, its last body wins. */
  lemma {:induction false} SetAllLastWins(files: map<string, string>, entries: seq<(string, string)>, i: nat)
    requires i < |entries|
    requires forall j :: i < j < |entries| ==> entries[j].0 != entries[i].0
    ensures entries[i].0 in SetAll(files, entries)
    ensures SetAll(files, entries)[entries[i].0] == entries[i].1
  {
    var init := entries[..|entries| - 1];
    if i < |init| {
      assert init[i] == entries[i];
      forall j | i < j < |init|
        ensures init[j].0 != init[i].0
      {
        assert init[j] == entries[j];
      }
      SetAllLastWins(files, init, i);
    }
  }

  /** A path no entry names keeps its body, or stays absent. */
  lemma {:induction false} SetAllUntouched(files: map<string, string>, entries: seq<(string, string)>, path: string)
    requires forall i :: 0 <= i < |entries| ==> entries[i].0 != path
    ensures path in SetAll(files, entries) <==> path in files
    ensures path in files ==> SetAll(files, entries)[path] == files[path]
  {
    if entries != [] {
      var init := entries[..|entries| - 1];
      forall i | 0 <= i < |init|
        ensures init[i].0 != path
      {
        assert init[i] == entries[i];
      }
      SetAllUntouched(files, init, path);
    }
  }

  /**
   * The key a COMPILE_REQUEST looks up: `index.html` is appended to a URL
   * ending in `/preview/`, with no other normalisation; any other URL is its
   * own key.
   */
  function InlineKey(url: string): (key: string)
    ensures EndsWith(url, "/preview/") ==> key == url + "index.html"
    ensures !EndsWith(url, "/preview/") ==> key == url
  {
    if EndsWith(url, "/preview/") then url + "index.html" else url
  }

  class Worker {
    const base: string
    const vitePrefix: string
    const channelName: string
    var vfs: map<string, string>

    /** The constants the page bakes into the worker's source, over an
        empty file map. */
    constructor(base: string, vitePrefix: string, channelName: string)
      ensures this.base == base && this.vitePrefix == vitePrefix
      ensures this.channelName == channelName
      ensures vfs == map[]
    {
      this.base, this.vitePrefix, this.channelName := base, vitePrefix, channelName;
      vfs := map[];
    }

    /** Start-up: the worker is created and `loadDemoFiles()` runs before
        any message is handled. */
    static method Start(baseUrl: string) returns (w: Worker)
      ensures fresh(w)
      ensures w.base == PageBase(baseUrl) && w.vitePrefix == PagePrefix(baseUrl)
      ensures w.channelName == ChannelName(baseUrl)
      ensures w.vfs == DemoFiles(w.vitePrefix)
    {
      w := new Worker(PageBase(baseUrl), PagePrefix(baseUrl), ChannelName(baseUrl));
      w.LoadDemoFiles();
    }

    /** `loadDemoFiles`: stores the demo page and its script under
        `<VITE_PREFIX>preview/`. */
    method LoadDemoFiles()
      modifies this`vfs
      ensures vfs == old(vfs)[DemoRoot(vitePrefix) + "index.html" := DemoIndexHtml]
                             [DemoRoot(vitePrefix) + "app.js" := DemoAppJs]
    {
      var root := vitePrefix + "preview/";
      vfs := vfs[root + "index.html" := DemoIndexHtml];
      vfs := vfs[root + "app.js" := DemoAppJs];
    }

    /** The VFS_SET loop: every entry is stored in order. */
    method SetFiles(entries: seq<(string, string)>)
      modifies this`vfs
      ensures vfs == SetAll(old(vfs), entries)
    {
      for k := 0 to |entries|
        invariant vfs == SetAll(old(vfs), entries[..k])
      {
        assert entries[..k + 1][..k] == entries[..k];
        vfs := vfs[entries[k].0 := entries[k].1];
      }
      assert entries[..|entries|] == entries;
    }

    /** The COMPILE_RESPONSE for a request: the file under the request's key,
        or a 404. */
    method Compile(id: RequestId, url: string) returns (reply: Reply)
      ensures reply == Respond(vfs, id, InlineKey(url))
    {
      var key := url;
      if EndsWith(key, "/preview/") {
        key := key + "index.html";
      }
      reply := Respond(vfs, id, key);
    }

    /**
     * The message listener. A VFS_SET with a `files` object stores its
     * entries and is acknowledged with VFS_OK; a PING_WORKER is answered with
     * PONG_WORKER; a COMPILE_REQUEST with its COMPILE_RESPONSE. Nothing else
     * is answered, and only VFS_SET changes the file map.
     */
    method Handle(msg: Request) returns (replies: seq<Reply>)
      modifies this`vfs
      ensures msg.VfsSet? && msg.files.Some? ==>
                vfs == SetAll(old(vfs), msg.files.value) && replies == [VfsOk]
      ensures !(msg.VfsSet? && msg.files.Some?) ==> vfs == old(vfs)
      ensures msg.PingWorker? ==> replies == [PongWorker]
      ensures msg.CompileRequest? ==> replies == [Respond(old(vfs), msg.id, InlineKey(msg.url))]
      ensures (msg.VfsSet? && msg.files.None?) || msg.Unrecognised? ==> replies == []
    {
      replies := [];
      if msg.VfsSet? && msg.files.Some? {
        SetFiles(msg.files.value);
        replies := replies + [VfsOk];
      }
      if msg.PingWorker? {
        replies := replies + [PongWorker];
      }
      if msg.CompileRequest? {
        var reply := Compile(msg.id, msg.url);
        replies := replies + [reply];
      }
    }
  }

  /**
   * A file pushed by VFS_SET under a path that is not a `/preview/`
   * directory URL is served back by a COMPILE_REQUEST for that path, with
   * the body of its last entry.
   */
  lemma PushedFileServed(files: map<string, string>, entries: seq<(string, string)>, i: nat, id: RequestId)
    requires i < |entries| && !EndsWith(entries[i].0, "/preview/")
    requires forall j :: i < j < |entries| ==> entries[j].0 != entries[i].0
    ensures var path := entries[i].0;
            Respond(SetAll(files, entries), id, InlineKey(path))
            == CompileResponse(id, true, 200, Some(entries[i].1), Some(ContentType(path)))
  {
    SetAllLastWins(files, entries, i);
  }
}
