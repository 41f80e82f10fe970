# Airtable attachment download: a Dafny model

The service answers `GET /get-file/?field_name=<name>`. It reads the records of
one Airtable table. It picks the first attachment found in the named field of
the earliest record that holds one, and downloads it into `downloads/`. Then it
serves the file back. This project models the two parts of
`get_screenshot.py` that are the program's own logic:

- the attachment-selection rule of `download_file_from_record`: which record
  and which attachment are chosen, what is skipped, which Python exceptions
  a malformed body raises, and the single `save_file` call;
- the outcome decision of `get_file`: the lookup's result and whether the
  saved path exists decide between 200 with the file and 500.

Files:

- `pyjson.dfy` (module `PyJson`): decoded JSON values, Python truth values,
  `dict.get`, and the exceptions the code can raise.
- `lookup.dfy` (module `RecordLookup`): the selection rule as functions
  (`ScanAttachments`, `ScanRecord`, `Select`), `save_file` as an abstract
  effect (`SaveFile`), POSIX `os.path.join` and `os.path.basename`, the whole
  lookup (`Lookup`), and the method `DownloadFileFromRecord`. That method runs
  the source's nested loops with early return and is proved equal to `Lookup`.
  It also returns the list of `save_file` calls it made.
- `lookup_lemmas.dfy` (module `LookupLemmas`): what the selection promises.
- `endpoint.dfy` (module `Endpoint`): the try block and the `except` handler
  of `get_file`, and end-to-end consequences.

Inputs that stand for I/O:

- `Reply` is the Airtable answer: a status with a decoded body, or a
  connection failure.
- `Disk` says whether creating `downloads`, fetching the attachment and
  writing it succeed.
- `onDisk` is the answer of `os.path.exists`.

Python exceptions are part of the model. They arise when `.get` is called on
something other than a dict, when something not iterable is iterated, or when
`os.path.join` gets a name that is not a str. A nonempty str or dict under
`"records"` raises `AttributeError` on its first item, because every item it
yields is a str.

Line 62 raises a 404 when no file was produced, evidently meant for the
client. It sits inside the `try`, though, and the `except Exception` on line
63 catches it and answers 500. The model follows the code as written (see
Findings).

## Model

| member | source | states |
|---|---|---|
| `PyJson.DictGet` | get_screenshot.py:26-32 | `.get` succeeds exactly on a dict, giving the stored value or the default; any other value raises AttributeError |
| `RecordLookup.RecordItems` | get_screenshot.py:26-27 | a body that is not a dict raises AttributeError; without "records" the record list is empty; a list under "records" yields its items in order; an empty str or dict yields nothing, a nonempty one raises AttributeError; any other value raises TypeError |
| `RecordLookup.ScanRecord` | get_screenshot.py:28-33 | one pass of the outer loop: a record that is not a dict raises AttributeError, a record without "fields" is passed over, a found attachment has a truthy url |
| `RecordLookup.ScanAttachments` | get_screenshot.py:30-33 | a found attachment has a truthy url; the only exception the inner loop raises is AttributeError |
| `RecordLookup.Select` | get_screenshot.py:27-35 | the attachment the outer loop settles on has a truthy url |
| `RecordLookup.Basename` | get_screenshot.py:60 | the download name is the slash-free suffix of the path that starts right after its last '/' (or is the whole path when it has no '/') |
| `RecordLookup.JoinPath` | get_screenshot.py:41 | the joined path ends with the file name; an absolute name replaces the directory; a relative name keeps the directory as prefix and, after a directory not ending in '/', is joined as `dir/name` |
| `RecordLookup.SaveFile` | get_screenshot.py:39-48 | `save_file` succeeds exactly when the directory is created, the name is a str, and the fetch and the write succeed; the path it returns is `os.path.join("downloads", name)` |
| `RecordLookup.Lookup` | get_screenshot.py:20-36 | a failed Airtable request raises; a status other than 200 gives None; a returned path is the result of the single `save_file` call, and no path is returned without one |
| `RecordLookup.SaveCalls` | get_screenshot.py:25-35 | `save_file` is called at most once, only after a 200 reply, and only with a truthy url |
| `RecordLookup.DownloadFileFromRecord` | get_screenshot.py:20-36 | the nested loops with early return compute exactly `Lookup`; the `save_file` calls they record, each appended when made, are exactly `SaveCalls` |
| `LookupLemmas.ScanAttachmentsFindsFirstUsable` | get_screenshot.py:30-35 | when entry k is the first attachment with a truthy url and every earlier entry is a url-less object, entry k is chosen with its own url and file name |
| `LookupLemmas.ScanAttachmentsFoundIsFirstUsable` | get_screenshot.py:30-35 | whatever the inner loop chooses is the first attachment with a truthy url, all entries before it being url-less objects |
| `LookupLemmas.ScanAttachmentsExhaustedIffUrlLess` | get_screenshot.py:30-33 | the inner loop ends without choosing exactly when every entry is an attachment object without a truthy url |
| `LookupLemmas.ScanRecordExhaustedIff` | get_screenshot.py:28-33 | a record is passed over exactly when its `fields` is a dict (or absent) and the named field is not a list, or is a list of url-less attachments |
| `LookupLemmas.RecordWithoutFieldsSkipped` | get_screenshot.py:28 | a record without "fields" is passed over, not an error |
| `LookupLemmas.RecordWithoutListSkipped` | get_screenshot.py:28-29 | a record whose named field is absent, not a list, or an empty list is passed over |
| `LookupLemmas.SelectIsFirstDecisive` | get_screenshot.py:27-35 | the earliest record, in server order, that does not come up empty decides the result |
| `LookupLemmas.SelectExhaustedIffAllEmpty` | get_screenshot.py:27-36 | nothing is selected exactly when every record comes up empty |
| `LookupLemmas.SelectComesFromFirstDecisive` | get_screenshot.py:27-35 | a decided selection is the result of the earliest record that does not come up empty |
| `LookupLemmas.NonOkStatusIsNoFile` | get_screenshot.py:25-36 | a status other than 200 gives None, and `save_file` is not called |
| `LookupLemmas.MissingRecordsIsNoFile` | get_screenshot.py:26 | a body without "records" gives None without calling `save_file` |
| `LookupLemmas.SaveAtMostOnce` | get_screenshot.py:34-35 | `save_file` is called at most once, and a returned path is that call's result, unchanged |
| `LookupLemmas.LookupChoosesEarliestAttachment` | get_screenshot.py:26-35 | for any 200 body that is a dict whose "records" is a list (other keys ignored), with record i the first decisive record and attachment k the first usable one in it, `save_file` is called once with that attachment's url and name (default "unknown_file"), and the lookup returns its outcome |
| `LookupLemmas.SavedPathUnderOutputDir` | get_screenshot.py:41 | a relative file name is saved at `downloads/<name>` |
| `LookupLemmas.BasenameAfterSeparator` | get_screenshot.py:60 | the base name of a path ending in '/' followed by a slash-free name is that name |
| `LookupLemmas.BasenameOfJoin` | get_screenshot.py:60 | the download name of a file saved under a slash-free name is that name |
| `Endpoint.TryBlock` | get_screenshot.py:57-62 | the try block returns the file under its base name exactly when the lookup gave a nonempty path that exists; None and a missing path raise a 404; a lookup exception propagates |
| `Endpoint.GetFile` | get_screenshot.py:56-64 | the file is sent exactly when the path is nonempty and exists, under its base name; every other response is 500, never 404 |
| `Endpoint.Serve` | get_screenshot.py:56-64 | end to end, every error response is 500, and a sent file is the path returned by the single `save_file` call, under its base name |
| `Endpoint.MissingFileIs500` | get_screenshot.py:58-64 | the 404 raised for a missing file is caught and the client gets 500 |
| `Endpoint.NonOkReplyIs500` | get_screenshot.py:25-64 | a non-200 Airtable reply ends in 500 |
| `Endpoint.NoAttachmentIs500` | get_screenshot.py:26-64 | for any 200 body whose "records" is a list, a field with no usable attachment in any record ends in 500 |
| `Endpoint.SavedFileIsServed` | get_screenshot.py:34-60 | when the chosen attachment is saved under a slash-free name and exists, the client gets `downloads/<name>` with download name `<name>` |
| `Endpoint.ScreenshotSelection` | get_screenshot.py:27-34 | for one record whose "Screenshot" field holds `{url: "https://cdn/x.png", filename: "shot.png"}`, `save_file` is called with exactly that url and name |
| `Endpoint.ScreenshotExample` | get_screenshot.py:56-60 | that reply is answered with `downloads/shot.png` under download name `shot.png` |
| `Endpoint.GetFileCorrected` | get_screenshot.py:56-64 | corrected endpoint: the file is sent exactly as before; otherwise 500 for a lookup exception and 404 for everything else |
| `Endpoint.CorrectedMissingFileIs404` | get_screenshot.py:62 | with the correction, a missing file is answered with the intended 404 |

## Left out

- The Airtable request (URL, bearer header; lines 21-23) and JSON decoding. The reply is an input. A body that fails to decode, which would raise and end in 500, is not modelled.
- The startup check of the environment variables (lines 10-17). It is configuration I/O that stops the process before any request.
- Streaming in 8192-byte chunks, `os.makedirs` and the file write (lines 40, 43-47). Each is modelled only by whether it succeeds (`Disk`). The fetch does not depend on the url's form in the model, though a non-str url makes the real request fail.
- `os.path.exists`: an input flag. Nothing ties it to an earlier successful save, since files can vanish in between.
- `os.path.join` and `os.path.basename` are modelled with POSIX semantics only.
- JSON numbers are reals. Infinities and NaN, which Python's decoder also accepts, are not modelled.
- A JSON object's key order is not kept. It matters only for a nonempty dict under "records", which raises on its first key whatever that key is.
- FastAPI routing, the `field_name` query validation, `FileResponse` streaming, the media type and the exception message texts.
- The deferred-URL variant (`/files/{file_name}`, the 120-second deletion timer) and concurrent requests: they are not in `get_screenshot.py`.

## Findings

| source | as written | input that shows it | evidently intended | confidence | as-written member | corrected member |
|---|---|---|---|---|---|---|
| get_screenshot.py:56-64 | `raise HTTPException(404)` sits inside a `try` whose `except Exception` catches it and raises a 500 | a 200 reply whose records hold no usable attachment in the requested field | a missing file answered with 404, as the `raise` on line 62 says | high, from reading the code; not executed | `Endpoint.MissingFileIs500` | `Endpoint.CorrectedMissingFileIs404` |

The end-to-end function `Serve` and the lemmas about it (`NonOkReplyIs500`,
`NoAttachmentIs500`, `SavedFileIsServed`) describe the service as it is
written. `GetFileCorrected` is there for the
intended behaviour.
