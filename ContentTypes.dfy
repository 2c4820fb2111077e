/**
 * `contentType(path)`, defined identically in src/vite/worker.ts and in the
 * worker embedded in src/main.ts: the response type chosen from the suffix of
 * the looked-up key.
 */
module ContentTypes {
  import opened Strings

  const HtmlType := "text/html; charset=utf-8"
  const ScriptType := "application/javascript; charset=utf-8"
  const CssType := "text/css; charset=utf-8"
  const JsonType := "application/json; charset=utf-8"
  const PlainType := "text/plain; charset=utf-8"

  predicate HasKnownSuffix(path: string) {
    EndsWith(path, ".html") || EndsWith(path, ".js") || EndsWith(path, ".mjs")
    || EndsWith(path, ".css") || EndsWith(path, ".json")
  }

  /** The response type; `ContentTypeByExtension` and `ContentTypeFallback`
      state what it chooses. */
  function ContentType(path: string): string {
    if EndsWith(path, ".html") then HtmlType
    else if EndsWith(path, ".js") || EndsWith(path, ".mjs") then ScriptType
    else if EndsWith(path, ".css") then CssType
    else if EndsWith(path, ".json") then JsonType
    else PlainType
  }

  /** The extension table that the chain of suffix tests implements. */
  const ExtensionTypes: map<string, string> :=
    map[".html" := HtmlType, ".js" := ScriptType, ".mjs" := ScriptType,
        ".css" := CssType, ".json" := JsonType]

  /**
   * The type depends on the extension alone: whatever the stem, each known
   * extension selects its entry of the table, so the order of the tests
   * never decides between two extensions.
   */
  lemma ContentTypeByExtension(stem: string, ext: string)
    requires ext in ExtensionTypes
    ensures ContentType(stem + ext) == ExtensionTypes[ext]
  {
    SuffixTests(stem, ext);
    assert ContentType(stem + ext) == ContentType(ext);
    TableAgrees(ext);
  }

  /** Each extension on its own gets its table entry. */
  lemma TableAgrees(ext: string)
    requires ext in ExtensionTypes
    ensures ContentType(ext) == ExtensionTypes[ext]
  {
    TableKey(ext);
  }

  lemma TableKey(ext: string)
    requires ext in ExtensionTypes
    ensures ext in {".html", ".js", ".mjs", ".css", ".json"}
  {
  }

  /** The table holds exactly the five suffixes the tests look for. */
  lemma KnownExtension()
    ensures ExtensionTypes.Keys == {".html", ".js", ".mjs", ".css", ".json"}
  {
  }

  /** For a known extension, exactly the suffix tests that the extension
      itself passes succeed. */
  lemma SuffixTests(stem: string, ext: string)
    requires ext in ExtensionTypes
    ensures EndsWith(stem + ext, ".html") == EndsWith(ext, ".html")
    ensures EndsWith(stem + ext, ".js") == EndsWith(ext, ".js")
    ensures EndsWith(stem + ext, ".mjs") == EndsWith(ext, ".mjs")
    ensures EndsWith(stem + ext, ".css") == EndsWith(ext, ".css")
    ensures EndsWith(stem + ext, ".json") == EndsWith(ext, ".json")
  {
    TableKey(ext);
    EndsWithConcat(stem, ext, ".html");
    EndsWithConcat(stem, ext, ".js");
    EndsWithConcat(stem, ext, ".mjs");
    EndsWithConcat(stem, ext, ".css");
    EndsWithConcat(stem, ext, ".json");
  }

  lemma ContentTypeFallback(path: string)
    ensures ContentType(path) == PlainType <==> !HasKnownSuffix(path)
  {
  }

  /** A file name of at least five characters decides the type on its own,
      whatever directory it is stored in. */
  lemma ContentTypeOfName(dir: string, name: string)
    requires |name| >= 5
    ensures ContentType(dir + name) == ContentType(name)
  {
    EndsWithConcat(dir, name, ".html");
    EndsWithConcat(dir, name, ".js");
    EndsWithConcat(dir, name, ".mjs");
    EndsWithConcat(dir, name, ".css");
    EndsWithConcat(dir, name, ".json");
  }

  lemma DemoFileTypes()
    ensures ContentType("index.html") == HtmlType && ContentType("app.js") == ScriptType
  {
  }
}
