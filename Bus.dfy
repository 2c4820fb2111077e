/**
 * The messages the page, the service worker and the preview workers exchange
 * over their shared BroadcastChannel, and the COMPILE_RESPONSE both workers
 * build from their in-memory file map.
 */
module Bus {
  import opened Wrappers
  import opened ContentTypes

  /** The request id, echoed back unchanged. */
  type RequestId = int

  datatype Request =
    | PingWorker
    | CompileRequest(id: RequestId, url: string)
    /** `files` is `None` when the message has no `files` object. */
    | VfsSet(files: Option<seq<(string, string)>>)
    /** Any other message, including one without data. */
    | Unrecognised

  datatype Reply =
    | PongWorker
    | VfsOk
    | WorkerDebug(lookedUp: string, has: bool)
    | CompileResponse(id: RequestId, ok: bool, status: int, body: Option<string>,
                      contentType: Option<string>)

  /**
   * The COMPILE_RESPONSE for `key`: a 404 without body when no file is
   * stored under it, otherwise a 200 carrying the file and the content type
   * its name calls for. The id is echoed either way.
   */
  function Respond(files: map<string, string>, id: RequestId, key: string): (r: Reply)
    ensures r.CompileResponse? && r.id == id
    ensures r.ok <==> key in files
    ensures r.status == (if key in files then 200 else 404)
    ensures key in files ==> r.body == Some(files[key]) && r.contentType == Some(ContentType(key))
    ensures key !in files ==> r.body.None? && r.contentType.None?
  {
    if key !in files then CompileResponse(id, false, 404, None, None)
    else CompileResponse(id, true, 200, Some(files[key]), Some(ContentType(key)))
  }

  lemma RespondFound(files: map<string, string>, id: RequestId, key: string)
    requires key in files
    ensures Respond(files, id, key)
            == CompileResponse(id, true, 200, Some(files[key]), Some(ContentType(key)))
  {
  }

  /** A file stored under a name with a known extension is served with that
      extension's type. */
  lemma RespondByExtension(files: map<string, string>, id: RequestId, stem: string, ext: string)
    requires stem + ext in files && ext in ExtensionTypes
    ensures Respond(files, id, stem + ext)
            == CompileResponse(id, true, 200, Some(files[stem + ext]), Some(ExtensionTypes[ext]))
  {
    ContentTypeByExtension(stem, ext);
  }
}
