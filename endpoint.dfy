/** The `GET /get-file/` endpoint (`get_file`): the lookup's outcome and
    whether the saved path exists on disk decide the response. The try block
    raises a 404 for a missing file, but its own broad `except Exception`
    catches that 404 along with every other exception and answers 500. */
module Endpoint {
  import opened PyJson
  import opened RecordLookup
  import LookupLemmas

  /** What reaches the client. */
  datatype Response =
    | FileSent(path: string, downloadName: string)  // 200, binary body, attachment name
    | HttpError(status: int)

  /** An exception raised inside the try block. */
  datatype Raised = HttpException(status: int) | PythonError(error: PyError)

  /** How the try block ends: by returning a response or by raising. */
  datatype Attempt = Returned(response: Response) | Threw(exception: Raised)

  /** The HTTP status of a response. */
  function StatusOf(r: Response): int
  {
    if r.FileSent? then 200 else r.status
  }

  /** The try block: the lookup either raised, or the path is checked
      (`file_path and os.path.exists(file_path)`) and the file is returned
      under its base name, or a 404 is raised. */
  function TryBlock(outcome: LookupOutcome, onDisk: bool): (a: Attempt)
    ensures a.Returned? <==> outcome.Path? && |outcome.path| > 0 && onDisk
    ensures a.Returned? ==> a.response == FileSent(outcome.path, Basename(outcome.path))
    ensures outcome.NoFile? ==> a == Threw(HttpException(404))
    ensures outcome.Failed? ==> a == Threw(PythonError(outcome.error))
    ensures a.Threw? && !outcome.Failed? ==> a == Threw(HttpException(404))
  {
    match outcome
    case Failed(e) => Threw(PythonError(e))
    case Path(p) =>
      if |p| > 0 && onDisk then Returned(FileSent(p, Basename(p)))
      else Threw(HttpException(404))
    case NoFile => Threw(HttpException(404))
  }

  /** `get_file`: `except Exception` turns every exception of the try block,
      the 404 included, into a 500. */
  function GetFile(outcome: LookupOutcome, onDisk: bool): (r: Response)
    ensures r.FileSent? <==> outcome.Path? && |outcome.path| > 0 && onDisk
    ensures r.FileSent? ==> r.path == outcome.path && r.downloadName == Basename(outcome.path)
    ensures r.HttpError? ==> r.status == 500
    ensures StatusOf(r) != 404
  {
    match TryBlock(outcome, onDisk)
    case Returned(response) => response
    case Threw(_) => HttpError(500)
  }

  /** `get_file` as evidently intended: an `HTTPException` raised in the try
      block reaches the client with its own status, and only other exceptions
      become 500. */
  function GetFileCorrected(outcome: LookupOutcome, onDisk: bool): (r: Response)
    ensures r.FileSent? <==> outcome.Path? && |outcome.path| > 0 && onDisk
    ensures r.FileSent? ==> r.path == outcome.path && r.downloadName == Basename(outcome.path)
    ensures r.HttpError? ==> r.status == (if outcome.Failed? then 500 else 404)
  {
    match TryBlock(outcome, onDisk)
    case Returned(response) => response
    case Threw(HttpException(status)) => HttpError(status)
    case Threw(PythonError(_)) => HttpError(500)
  }

  /** With the correction, a lookup that finds nothing and a path that does
      not exist are answered with 404. */
  lemma CorrectedMissingFileIs404(outcome: LookupOutcome, onDisk: bool)
    requires outcome.NoFile? || (outcome.Path? && !onDisk)
    ensures GetFileCorrected(outcome, onDisk) == HttpError(404)
  {
  }

  /** The endpoint end to end, from the Airtable reply and the disk. */
  function Serve(reply: Reply, field: string, disk: Disk, onDisk: bool): (r: Response)
    ensures r.HttpError? ==> r.status == 500
    ensures r.FileSent? ==> onDisk && |SaveCalls(reply, field)| == 1 &&
                            SaveFile(SaveCalls(reply, field)[0], disk) == Ok(r.path) &&
                            r.downloadName == Basename(r.path)
  {
    GetFile(Lookup(reply, field, disk), onDisk)
  }

  /** The 404 of the try block never reaches the client: a lookup that finds
      nothing, or a path that does not exist, is answered with 500. */
  lemma MissingFileIs500(outcome: LookupOutcome, onDisk: bool)
    requires outcome.NoFile? || (outcome.Path? && !onDisk)
    ensures TryBlock(outcome, onDisk) == Threw(HttpException(404))
    ensures GetFile(outcome, onDisk) == HttpError(500)
  {
  }

  /** A non-200 Airtable reply is answered with 500. */
  lemma NonOkReplyIs500(status: int, body: Json, field: string, disk: Disk, onDisk: bool)
    requires status != 200
    ensures Serve(Replied(status, body), field, disk, onDisk) == HttpError(500)
  {
  }

  /** A field holding no usable attachment in any record is answered with 500. */
  lemma NoAttachmentIs500(body: Json, records: seq<Json>, field: string, disk: Disk, onDisk: bool)
    requires body.JObject? && "records" in body.fields && body.fields["records"] == JArray(records)
    requires forall j :: 0 <= j < |records| ==> ScanRecord(records[j], field) == Exhausted
    ensures Serve(Replied(200, body), field, disk, onDisk) == HttpError(500)
  {
    LookupLemmas.SelectExhaustedIffAllEmpty(records, field);
  }

  /** When the chosen attachment's file is saved and exists, the client gets
      the file at `downloads/<name>` under the download name `<name>`, for a
      file name without separators. */
  lemma SavedFileIsServed(reply: Reply, field: string, disk: Disk, name: string)
    requires |SaveCalls(reply, field)| == 1 && SaveCalls(reply, field)[0].filename == JString(name)
    requires '/' !in name
    requires disk.dirOk && disk.fetchOk && disk.writeOk
    ensures Serve(reply, field, disk, true) == FileSent(OUTPUT_DIR + "/" + name, name)
  {
    var a := SaveCalls(reply, field)[0];
    assert reply.Replied? && reply.status == 200 && RecordItems(reply.body).Ok?;
    assert Select(RecordItems(reply.body).value, field) == Found(a);
    assert !(|name| > 0 && name[0] == '/') by {
      if |name| > 0 { assert name[0] in name; }
    }
    var p := JoinPath(OUTPUT_DIR, name);
    assert SaveFile(a, disk) == Ok(p);
    assert Lookup(reply, field, disk) == Path(p);
    LookupLemmas.BasenameOfJoin(OUTPUT_DIR, name);
  }

  /** A reply whose only record holds, in its "Screenshot" field, one
      attachment `{url: "https://cdn/x.png", filename: "shot.png"}`. */
  function ScreenshotReply(): Reply
  {
    var shot := JObject(map["url" := JString("https://cdn/x.png"),
                            "filename" := JString("shot.png")]);
    var record := JObject(map["fields" := JObject(map["Screenshot" := JArray([shot])])]);
    Replied(200, JObject(map["records" := JArray([record])]))
  }

  /** In that reply, the lookup chooses the one attachment. */
  lemma ScreenshotSelection()
    ensures SaveCalls(ScreenshotReply(), "Screenshot") ==
            [Attachment(JString("https://cdn/x.png"), JString("shot.png"))]
  {
    var shot := JObject(map["url" := JString("https://cdn/x.png"),
                            "filename" := JString("shot.png")]);
    var record := JObject(map["fields" := JObject(map["Screenshot" := JArray([shot])])]);
    assert ScanRecord(record, "Screenshot") == Found(AttachmentOf(shot.fields));
    assert RecordItems(ScreenshotReply().body) == Ok([record]);
  }

  /** That reply is answered with the file downloads/shot.png under the name
      shot.png. */
  lemma ScreenshotExample(disk: Disk)
    requires disk.dirOk && disk.fetchOk && disk.writeOk
    ensures Serve(ScreenshotReply(), "Screenshot", disk, true) == FileSent("downloads/shot.png", "shot.png")
  {
    ScreenshotSelection();
    SavedFileIsServed(ScreenshotReply(), "Screenshot", disk, "shot.png");
    assert OUTPUT_DIR + "/" + "shot.png" == "downloads/shot.png";
  }
}
