/** The record lookup of `download_file_from_record` and the path produced by
    `save_file`: the Airtable reply is an input (status and decoded body), the
    download itself is an abstract effect that succeeds with the joined path
    or raises. */
module RecordLookup {
  import opened PyJson

  /** The directory every downloaded file is written to. */
  const OUTPUT_DIR: string := "downloads"

  /** The name used for an attachment that carries no `filename`. */
  const UNKNOWN_FILE: string := "unknown_file"

  /** The arguments passed to `save_file`: whatever the attachment object holds
      under `url` and `filename` (not necessarily strings). */
  datatype Attachment = Attachment(url: Json, filename: Json)

  /** How the request to the Airtable API ended. */
  datatype Reply = Replied(status: int, body: Json) | ConnectionFailed

  /** How the effects inside `save_file` go: creating the output directory,
      fetching the attachment (including its status check) and writing it. */
  datatype Disk = Disk(dirOk: bool, fetchOk: bool, writeOk: bool)

  /** Where a scan stops: at a usable attachment, at the end of its input, or
      at an exception. */
  datatype Scan = Found(attachment: Attachment) | Exhausted | Raised(error: PyError)

  /** What `download_file_from_record` does: returns a path, returns None, or
      raises. */
  datatype LookupOutcome = Path(path: string) | NoFile | Failed(error: PyError)

  // ---------------------------------------------------------------------------
  // Reading the decoded body
  // ---------------------------------------------------------------------------

  /** The records the loop iterates over: `response.json().get("records", [])`.
      A list is iterated element by element. A str or dict is iterable too, but
      every item it yields is a str, whose missing `.get` raises on the first
      record; an empty one yields nothing. Any other value is not iterable. */
  function RecordItems(body: Json): (r: Result<seq<Json>>)
    ensures !body.JObject? ==> r == Err(AttributeError)
    ensures body.JObject? && "records" !in body.fields ==> r == Ok([])
    ensures body.JObject? && "records" in body.fields ==>
      var records := body.fields["records"];
      match records
      case JArray(items) => r == Ok(items)
      case JString(s) => r == (if |s| == 0 then Ok([]) else Err(AttributeError))
      case JObject(m) => r == (if |m| == 0 then Ok([]) else Err(AttributeError))
      case _ => r == Err(TypeError)
  {
    match DictGet(body, "records", JArray([]))
    case Err(e) => Err(e)
    case Ok(records) =>
      match records
      case JArray(items) => Ok(items)
      case JString(s) => if |s| == 0 then Ok([]) else Err(AttributeError)
      case JObject(m) => if |m| == 0 then Ok([]) else Err(AttributeError)
      case _ => Err(TypeError)
  }

  /** `record.get("fields", {}).get(field, [])`. */
  function FieldData(record: Json, field: string): Result<Json>
  {
    match DictGet(record, "fields", JObject(map[]))
    case Err(e) => Err(e)
    case Ok(fields) => DictGet(fields, field, JArray([]))
  }

  /** The url and file name read from an attachment object; the name defaults
      to "unknown_file". */
  function AttachmentOf(fields: map<string, Json>): Attachment
  {
    Attachment(Get(fields, "url", JNull), Get(fields, "filename", JString(UNKNOWN_FILE)))
  }

  /** An attachment object with a truthy url: the scan stops at it. */
  predicate Usable(v: Json)
  {
    v.JObject? && Truthy(AttachmentOf(v.fields).url)
  }

  /** An attachment object whose url is missing or falsy: the scan moves past it. */
  predicate UrlLess(v: Json)
  {
    v.JObject? && !Truthy(AttachmentOf(v.fields).url)
  }

  // ---------------------------------------------------------------------------
  // The selection rule as functions
  // ---------------------------------------------------------------------------

  /** The inner loop over one field's list: the first attachment with a truthy
      url; an entry that is not an object raises when `.get` is called on it. */
  function ScanAttachments(atts: seq<Json>): (r: Scan)
    ensures r.Raised? ==> r.error == AttributeError
    ensures r.Found? ==> Truthy(r.attachment.url)
  {
    if atts == [] then Exhausted
    else if !atts[0].JObject? then Raised(AttributeError)
    else if Truthy(AttachmentOf(atts[0].fields).url) then Found(AttachmentOf(atts[0].fields))
    else ScanAttachments(atts[1..])
  }

  /** One pass of the outer loop: only a non-empty list in the named field is
      scanned; anything else leaves the record behind. */
  function ScanRecord(record: Json, field: string): (r: Scan)
    ensures r.Found? ==> Truthy(r.attachment.url)
    ensures r.Raised? ==> r.error == AttributeError
    ensures !record.JObject? ==> r == Raised(AttributeError)
    ensures record.JObject? && "fields" !in record.fields ==> r == Exhausted
  {
    match FieldData(record, field)
    case Err(e) => Raised(e)
    case Ok(data) =>
      if data.JArray? && |data.items| > 0 then ScanAttachments(data.items) else Exhausted
  }

  /** The selection rule: records are taken in server order and the first one
      that does not come up empty decides the result. */
  function Select(records: seq<Json>, field: string): (r: Scan)
    ensures r.Found? ==> Truthy(r.attachment.url)
  {
    if records == [] then Exhausted
    else match ScanRecord(records[0], field)
      case Exhausted => Select(records[1..], field)
      case decided => decided
  }

  // ---------------------------------------------------------------------------
  // save_file and the whole lookup
  // ---------------------------------------------------------------------------

  /** POSIX `os.path.join(a, b)` of two components: an absolute `b` replaces
      `a`, otherwise a separator is inserted unless `a` is empty or ends in one. */
  function JoinPath(a: string, b: string): (r: string)
    ensures |b| <= |r| && r[|r| - |b|..] == b
    ensures |b| > 0 && b[0] == '/' ==> r == b
    ensures (b == [] || b[0] != '/') ==> |r| >= |a| && r[..|a|] == a
    ensures (b == [] || b[0] != '/') && a != [] && a[|a| - 1] != '/' ==> r == a + "/" + b
  {
    if |b| > 0 && b[0] == '/' then b
    else if a == [] || a[|a| - 1] == '/' then a + b
    else a + "/" + b
  }

  /** POSIX `os.path.basename(p)`: whatever follows the last separator. */
  function Basename(p: string): (r: string)
    ensures '/' !in r
    ensures |r| <= |p| && r == p[|p| - |r|..]
    ensures |r| < |p| ==> p[|p| - |r| - 1] == '/'
  {
    if p == [] then []
    else if p[|p| - 1] == '/' then []
    else Basename(p[..|p| - 1]) + [p[|p| - 1]]
  }

  /** `save_file(url, file_name)`: create the directory, join the path (which
      rejects a non-str name), fetch, write; the path is returned unchanged. */
  function SaveFile(a: Attachment, disk: Disk): (r: Result<string>)
    ensures r.Ok? <==> disk.dirOk && a.filename.JString? && disk.fetchOk && disk.writeOk
    ensures r.Ok? ==> r.value == JoinPath(OUTPUT_DIR, a.filename.s)
  {
    if !disk.dirOk then Err(OSError)
    else if !a.filename.JString? then Err(TypeError)
    else if !disk.fetchOk then Err(RequestException)
    else if !disk.writeOk then Err(OSError)
    else Ok(JoinPath(OUTPUT_DIR, a.filename.s))
  }

  /** `download_file_from_record` as a function of the reply and the disk. */
  function Lookup(reply: Reply, field: string, disk: Disk): (r: LookupOutcome)
    ensures reply.ConnectionFailed? ==> r == Failed(RequestException)
    ensures reply.Replied? && reply.status != 200 ==> r == NoFile
    ensures r.Path? ==> |SaveCalls(reply, field)| == 1 &&
                        SaveFile(SaveCalls(reply, field)[0], disk) == Ok(r.path)
    ensures SaveCalls(reply, field) == [] ==> !r.Path?
  {
    match reply
    case ConnectionFailed => Failed(RequestException)
    case Replied(status, body) =>
      if status != 200 then NoFile
      else match RecordItems(body)
        case Err(e) => Failed(e)
        case Ok(records) =>
          match Select(records, field)
          case Exhausted => NoFile
          case Raised(e) => Failed(e)
          case Found(a) =>
            match SaveFile(a, disk)
            case Ok(p) => Path(p)
            case Err(e) => Failed(e)
  }

  /** The calls made to `save_file`, in order. */
  function SaveCalls(reply: Reply, field: string): (r: seq<Attachment>)
    ensures |r| <= 1
    ensures r != [] ==> reply.Replied? && reply.status == 200 && Truthy(r[0].url)
  {
    if reply.Replied? && reply.status == 200 && RecordItems(reply.body).Ok? then
      match Select(RecordItems(reply.body).value, field)
      case Found(a) => [a]
      case _ => []
    else []
  }

  // ---------------------------------------------------------------------------
  // The loop of the source
  // ---------------------------------------------------------------------------

  /** The nested loops of `download_file_from_record`, with an early return at
      the first usable attachment. Besides the result it returns the arguments
      of every `save_file` call it made. */
  method DownloadFileFromRecord(reply: Reply, field: string, disk: Disk)
    returns (outcome: LookupOutcome, saved: seq<Attachment>)
    ensures outcome == Lookup(reply, field, disk)
    ensures saved == SaveCalls(reply, field)
  {
    saved := [];
    if reply.ConnectionFailed? {
      outcome := Failed(RequestException);
      return;
    }
    if reply.status != 200 {
      outcome := NoFile;
      return;
    }
    var items := RecordItems(reply.body);
    if items.Err? {
      outcome := Failed(items.error);
      return;
    }
    var records := items.value;
    var i := 0;
    while i < |records|
      invariant 0 <= i <= |records|
      invariant Select(records, field) == Select(records[i..], field)
      invariant saved == []
    {
      var record := records[i];
      var fieldData := FieldData(record, field);
      if fieldData.Err? {
        outcome := Failed(fieldData.error);
        return;
      }
      var data := fieldData.value;
      if data.JArray? && |data.items| > 0 {
        var attachments := data.items;
        var j := 0;
        while j < |attachments|
          invariant 0 <= j <= |attachments|
          invariant ScanAttachments(attachments) == ScanAttachments(attachments[j..])
          invariant saved == []
        {
          var attachment := attachments[j];
          if !attachment.JObject? {
            outcome := Failed(AttributeError);
            return;
          }
          var fileUrl := Get(attachment.fields, "url", JNull);
          var fileName := Get(attachment.fields, "filename", JString(UNKNOWN_FILE));
          if Truthy(fileUrl) {
            var chosen := Attachment(fileUrl, fileName);
            saved := saved + [chosen];
            var result := SaveFile(chosen, disk);
            outcome := if result.Ok? then Path(result.value) else Failed(result.error);
            return;
          }
          assert attachments[j..][1..] == attachments[j + 1..];
          j := j + 1;
        }
      }
      assert records[i..][1..] == records[i + 1..];
      i := i + 1;
    }
    outcome := NoFile;
  }
}
