/**
 * The constants of the host page (src/main.ts) that place the preview under
 * the site's base URL: `BASE`, `VITE_PREFIX`, the channel name, the service
 * worker's script URL and scope, and the iframe's URL.
 */
module PreviewPage {
  import opened Strings
  import opened MainPaths

  /** `BASE`: `normalizeBase(BASE_URL || "/")`. */
  function PageBase(baseUrl: string): (r: string)
    ensures EndsWith(r, "/") && NoDoubleSlash(r)
    ensures Slashless(r) == Slashless(baseUrl)
  {
    NormalizeBase(OrSlash(baseUrl))
  }

  /** `VITE_PREFIX`: `join(BASE, "vite/")`. */
  function PagePrefix(baseUrl: string): string {
    Join(PageBase(baseUrl), "vite/")
  }

  /** `CHANNEL_NAME`, shared by the page, the service worker and the worker. */
  function ChannelName(baseUrl: string): string {
    PagePrefix(baseUrl) + "bus"
  }

  /** The iframe's `src`: `join(VITE_PREFIX, "preview/")`. */
  function IframeSrc(baseUrl: string): string {
    Join(PagePrefix(baseUrl), "preview/")
  }

  /** The script URL the page registers, as written:
      `join(VITE_PREFIX, "sw.js")`. */
  function ServiceWorkerUrl(baseUrl: string): string {
    Join(PagePrefix(baseUrl), "sw.js")
  }

  /** The registration's scope: `VITE_PREFIX`. */
  function ServiceWorkerScope(baseUrl: string): string {
    PagePrefix(baseUrl)
  }

  lemma PageNames()
    ensures SlashFree("vite") && SlashFree("preview") && SlashFree("sw.js")
    ensures "vite" + "/" == "vite/" && "preview" + "/" == "preview/"
    ensures "/" + "preview/" == "/preview/" && "/" + "sw.js" == "/sw.js"
  {
  }

  /**
   * The script URL the page means to register, `<BASE>vite/sw.js`: a file
   * named `sw.js` directly inside the scope, with no trailing slash.
   */
  function ServiceWorkerScript(baseUrl: string): (r: string)
    ensures StartsWith(r, ServiceWorkerScope(baseUrl))
    ensures EndsWith(r, "/sw.js") && !EndsWith(r, "/")
    ensures Slashless(r) == Slashless(ServiceWorkerScope(baseUrl)) + "sw.js"
  {
    var scope := ServiceWorkerScope(baseUrl);
    PageNames();
    StartsWithConcat(scope, "sw.js");
    EndsWithAfterSlash(scope, "sw.js");
    SlashlessAppend(scope, "sw.js");
    SlashlessOfSlashFree("sw.js");
    NoTrailingSlashAfter(scope, "sw.js");
    scope + "sw.js"
  }

  /** The prefix is the base followed by `vite/`. */
  lemma PagePrefixShape(baseUrl: string)
    ensures PagePrefix(baseUrl) == PageBase(baseUrl) + "vite/"
  {
    PageNames();
    JoinSubdir(PageBase(baseUrl), "vite");
  }

  /** The iframe is pointed at the `preview/` directory under the prefix. */
  lemma IframeSrcShape(baseUrl: string)
    ensures IframeSrc(baseUrl) == PagePrefix(baseUrl) + "preview/"
    ensures EndsWith(IframeSrc(baseUrl), "/preview/")
  {
    var p := PagePrefix(baseUrl);
    PageNames();
    JoinSubdir(p, "preview");
    EndsWithAfterSlash(p, "preview/");
  }

  /**
   * As written, `join` ends every result with a slash, so the registered
   * script URL is `<prefix>sw.js/` rather than the `<prefix>sw.js` file
   * inside the scope.
   */
  lemma ServiceWorkerUrlIsDirectory(baseUrl: string)
    ensures ServiceWorkerUrl(baseUrl) == ServiceWorkerScript(baseUrl) + "/"
    ensures EndsWith(ServiceWorkerUrl(baseUrl), "/")
    ensures ServiceWorkerUrl(baseUrl) != ServiceWorkerScript(baseUrl)
  {
    PageNames();
    JoinFile(PagePrefix(baseUrl), "sw.js");
    var u := ServiceWorkerUrl(baseUrl);
    assert u[|u| - 1] == '/';
  }

  /** For the root base the page registers `/vite/sw.js/`. */
  lemma RootServiceWorkerUrl()
    ensures ServiceWorkerScript("/") == "/vite/sw.js"
    ensures ServiceWorkerUrl("/") == "/vite/sw.js/"
  {
    assert PageBase("/") == "/";
    PagePrefixShape("/");
    RootNames();
    ServiceWorkerUrlIsDirectory("/");
  }

  lemma RootNames()
    ensures "/" + "vite/" == "/vite/" && "/vite/" + "sw.js" == "/vite/sw.js"
    ensures "/vite/sw.js" + "/" == "/vite/sw.js/"
  {
  }
}
