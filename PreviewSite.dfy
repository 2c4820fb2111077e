/**
 * The page, the service worker's partner and the two preview workers
 * together: the iframe URL the page builds is the directory the workers
 * seeded, so its first request and the script it loads are answered from the
 * demo files.
 */
module PreviewSite {
  import opened Wrappers
  import opened Strings
  import opened WorkerPaths
  import opened MainPaths
  import opened ContentTypes
  import opened Bus
  import opened PreviewPage
  import PW = PreviewWorker
  import IW = InlineWorker

  lemma Regroup(x: string, seg: string)
    ensures x + seg + "/" == x + (seg + "/")
  {
  }

  /** A key that ends with a file name is not a `/preview/` URL. */
  lemma FileKeyNotPreview(dir: string, name: string)
    requires name != [] && SlashFree(name)
    ensures !EndsWith(dir + name, "/preview/")
  {
    NoTrailingSlashAfter(dir, name);
  }

  /** On an absolute path, `normalizeBase` and `dir` agree. */
  lemma NormalizeIsDir(x: string)
    requires StartsWith(x, "/")
    ensures NormalizeBase(x) == Dir(x)
  {
    var s := "/" + x;
    assert x[0] == '/' by {
      assert x[..1] == "/";
    }
    assert s[0] == '/' && s[1] == '/' && s[1..] == x;
    assert CollapseSlashes(s) == CollapseSlashes(x);
    if !EndsWith(x, "/") {
      assert x[|x| - 1] != '/';
      CollapseAppend(x, "/");
    }
  }

  /** With an absolute or empty `BASE_URL`, the page's `BASE` is the one
      src/vite/worker.ts computes. */
  lemma BasesAgree(baseUrl: string)
    requires baseUrl == [] || StartsWith(baseUrl, "/")
    ensures PageBase(baseUrl) == PW.Base(baseUrl)
    ensures IsDir(PageBase(baseUrl))
  {
    var x := OrSlash(baseUrl);
    assert StartsWith(x, "/");
    NormalizeIsDir(x);
  }

  /** ... and so are the `vite/` prefix and the channel name. */
  lemma PrefixesAgree(baseUrl: string)
    requires baseUrl == [] || StartsWith(baseUrl, "/")
    ensures PagePrefix(baseUrl) == PW.VitePrefix(baseUrl)
    ensures ChannelName(baseUrl) == PW.VitePrefix(baseUrl) + "bus"
    ensures IsDir(PagePrefix(baseUrl))
  {
    var b := PageBase(baseUrl);
    BasesAgree(baseUrl);
    SegmentNames();
    SubDir(b, "vite");
    Regroup(b, "vite");
    PageNames();
    PagePrefixShape(baseUrl);
  }

  /** ... and the directory the page's iframe points at is the one
      src/vite/worker.ts seeds. */
  lemma RootsAgree(baseUrl: string)
    requires baseUrl == [] || StartsWith(baseUrl, "/")
    ensures IframeSrc(baseUrl) == PW.PreviewRoot(baseUrl)
    ensures IsDir(IframeSrc(baseUrl))
  {
    var p := PagePrefix(baseUrl);
    PrefixesAgree(baseUrl);
    SegmentNames();
    SubDir(p, "preview");
    Regroup(p, "preview");
    PageNames();
    IframeSrcShape(baseUrl);
  }

  /** A file stored by src/vite/worker.ts directly under a directory. */
  lemma SeedKey(root: string, name: string)
    requires IsDir(root) && name != [] && SlashFree(name)
    ensures PW.RequestKey(root + name) == PathJoin([root, name]) == root + name
  {
    PathJoinOntoDir(root, name);
    FileKeyNotPreview(root, name);
  }

  /** Where src/vite/worker.ts stores its demo files, and with which type
      each is served. */
  lemma SeededKeys(root: string)
    requires IsDir(root)
    ensures PW.IndexKey(root) == root + "index.html" && PW.AppKey(root) == root + "app.js"
    ensures ContentType(PW.IndexKey(root)) == HtmlType && ContentType(PW.AppKey(root)) == ScriptType
  {
    IndexFileName();
    SegmentNames();
    SeedKey(root, "index.html");
    SeedKey(root, "app.js");
    ContentTypeOfName(root, "index.html");
    ContentTypeOfName(root, "app.js");
    DemoFileTypes();
  }

  lemma SeededFiles(root: string)
    requires IsDir(root)
    ensures PW.IndexKey(root) in PW.Seeds(root) && PW.Seeds(root)[PW.IndexKey(root)] == PW.IndexHtml
    ensures PW.AppKey(root) in PW.Seeds(root) && PW.Seeds(root)[PW.AppKey(root)] == PW.AppJs
  {
    SeededKeys(root);
    assert |PW.IndexKey(root)| != |PW.AppKey(root)|;
    TwoEntries(PW.IndexKey(root), PW.IndexHtml, PW.AppKey(root), PW.AppJs);
  }

  lemma TwoEntries(k1: string, v1: string, k2: string, v2: string)
    requires k1 != k2
    ensures var m := map[][k1 := v1][k2 := v2];
            k1 in m && m[k1] == v1 && k2 in m && m[k2] == v2
  {
  }

  /** The iframe URL is rewritten to the seeded `index.html`. */
  lemma IframeKey(baseUrl: string)
    requires baseUrl == [] || StartsWith(baseUrl, "/")
    ensures PW.RequestKey(IframeSrc(baseUrl)) == PW.IndexKey(PW.PreviewRoot(baseUrl))
  {
    var root := PW.PreviewRoot(baseUrl);
    RootsAgree(baseUrl);
    IframeSrcShape(baseUrl);
    DirOfDir(root);
    SeededKeys(root);
  }

  /**
   * The iframe's first request, answered by src/vite/worker.ts: the URL is
   * rewritten to the seeded `index.html`, which is served as HTML.
   */
  lemma WorkerServesIframe(baseUrl: string, id: RequestId)
    requires baseUrl == [] || StartsWith(baseUrl, "/")
    ensures var root := PW.PreviewRoot(baseUrl);
            PW.RequestKey(IframeSrc(baseUrl)) == PW.IndexKey(root)
            && Respond(PW.Seeds(root), id, PW.RequestKey(IframeSrc(baseUrl)))
               == CompileResponse(id, true, 200, Some(PW.IndexHtml), Some(HtmlType))
  {
    var root := PW.PreviewRoot(baseUrl);
    IframeKey(baseUrl);
    RootsAgree(baseUrl);
    SeededKeys(root);
    SeededFiles(root);
    RespondFound(PW.Seeds(root), id, PW.IndexKey(root));
  }

  /** The page's `./app.js`, resolved against the iframe URL, is served by
      src/vite/worker.ts as JavaScript. */
  lemma WorkerServesScript(baseUrl: string, id: RequestId)
    requires baseUrl == [] || StartsWith(baseUrl, "/")
    ensures var root := PW.PreviewRoot(baseUrl);
            PW.RequestKey(IframeSrc(baseUrl) + "app.js") == PW.AppKey(root)
            && Respond(PW.Seeds(root), id, PW.RequestKey(IframeSrc(baseUrl) + "app.js"))
               == CompileResponse(id, true, 200, Some(PW.AppJs), Some(ScriptType))
  {
    var root := PW.PreviewRoot(baseUrl);
    RootsAgree(baseUrl);
    SegmentNames();
    SeedKey(root, "app.js");
    SeededKeys(root);
    SeededFiles(root);
    RespondFound(PW.Seeds(root), id, PW.AppKey(root));
  }

  /** Where the embedded worker stores its demo files, and with which type
      each is served. */
  lemma DemoFiles(p: string)
    ensures var files, root := IW.DemoFiles(p), IW.DemoRoot(p);
            root + "index.html" in files && files[root + "index.html"] == IW.DemoIndexHtml
            && root + "app.js" in files && files[root + "app.js"] == IW.DemoAppJs
            && ContentType(root + "index.html") == HtmlType && ContentType(root + "app.js") == ScriptType
  {
    var root := IW.DemoRoot(p);
    assert |root + "index.html"| != |root + "app.js"|;
    ContentTypeOfName(root, "index.html");
    ContentTypeOfName(root, "app.js");
    DemoFileTypes();
  }

  /**
   * The iframe's first request, answered by the worker embedded in the page:
   * whatever the base URL, `index.html` is appended to the iframe URL and
   * the demo page is served as HTML.
   */
  lemma InlineServesIframe(baseUrl: string, id: RequestId)
    ensures var p := PagePrefix(baseUrl);
            IW.InlineKey(IframeSrc(baseUrl)) == IW.DemoRoot(p) + "index.html"
            && Respond(IW.DemoFiles(p), id, IW.InlineKey(IframeSrc(baseUrl)))
               == CompileResponse(id, true, 200, Some(IW.DemoIndexHtml), Some(HtmlType))
  {
    var p := PagePrefix(baseUrl);
    IframeSrcShape(baseUrl);
    DemoFiles(p);
    RespondFound(IW.DemoFiles(p), id, IW.DemoRoot(p) + "index.html");
  }

  /** ... and so is `./app.js`, as JavaScript. */
  lemma InlineServesScript(baseUrl: string, id: RequestId)
    ensures var p := PagePrefix(baseUrl);
            IW.InlineKey(IframeSrc(baseUrl) + "app.js") == IW.DemoRoot(p) + "app.js"
            && Respond(IW.DemoFiles(p), id, IW.InlineKey(IframeSrc(baseUrl) + "app.js"))
               == CompileResponse(id, true, 200, Some(IW.DemoAppJs), Some(ScriptType))
  {
    var p := PagePrefix(baseUrl);
    IframeSrcShape(baseUrl);
    SegmentNames();
    FileKeyNotPreview(IW.DemoRoot(p), "app.js");
    DemoFiles(p);
    RespondFound(IW.DemoFiles(p), id, IW.DemoRoot(p) + "app.js");
  }

  /** The two workers look up the same key for every request URL that is
      either not a `/preview/` URL or already a clean directory path. */
  /** Both workers look up the same key for the page's iframe URL. */
  lemma IframeKeysAgree(baseUrl: string)
    requires baseUrl == [] || StartsWith(baseUrl, "/")
    ensures IW.InlineKey(IframeSrc(baseUrl)) == PW.RequestKey(IframeSrc(baseUrl))
  {
    RootsAgree(baseUrl);
    KeysAgree(IframeSrc(baseUrl));
  }

  lemma KeysAgree(url: string)
    requires !EndsWith(url, "/preview/") || IsDir(url)
    ensures IW.InlineKey(url) == PW.RequestKey(url)
  {
    if EndsWith(url, "/preview/") {
      DirOfDir(url);
    }
  }
}
