/** What the selection rule of `download_file_from_record` promises: which
    record and which attachment are chosen, what is skipped, how often
    `save_file` runs and which path comes back. */
module LookupLemmas {
  import opened PyJson
  import opened RecordLookup

  /** Entry k of an attachment list is the first usable one: every entry
      before it is an object without a usable url. */
  ghost predicate FirstUsableAt(atts: seq<Json>, k: int)
  {
    0 <= k < |atts| && Usable(atts[k]) && forall j :: 0 <= j < k ==> UrlLess(atts[j])
  }

  /** Record i is the first one that does not come up empty. */
  ghost predicate FirstDecisiveAt(records: seq<Json>, field: string, i: int)
  {
    0 <= i < |records| && !ScanRecord(records[i], field).Exhausted? &&
    forall j :: 0 <= j < i ==> ScanRecord(records[j], field) == Exhausted
  }

  // ---------------------------------------------------------------------------
  // Inside one record: the attachment list
  // ---------------------------------------------------------------------------

  /** Url-less attachments are passed over and the first one with a truthy
      url is chosen, with its own url and file name. */
  lemma {:induction false} ScanAttachmentsFindsFirstUsable(atts: seq<Json>, k: int)
    requires FirstUsableAt(atts, k)
    ensures ScanAttachments(atts) == Found(AttachmentOf(atts[k].fields))
  {
    if k > 0 {
      assert UrlLess(atts[0]);
      assert FirstUsableAt(atts[1..], k - 1) by {
        forall j | 0 <= j < k - 1 ensures UrlLess(atts[1..][j]) {
          assert atts[1..][j] == atts[j + 1];
        }
      }
      ScanAttachmentsFindsFirstUsable(atts[1..], k - 1);
    }
  }

  /** Conversely, whatever the scan finds is the first usable attachment. */
  lemma {:induction false} ScanAttachmentsFoundIsFirstUsable(atts: seq<Json>)
    requires ScanAttachments(atts).Found?
    ensures exists k :: FirstUsableAt(atts, k) &&
                        ScanAttachments(atts).attachment == AttachmentOf(atts[k].fields)
  {
    if Usable(atts[0]) {
      assert FirstUsableAt(atts, 0);
    } else {
      ScanAttachmentsFoundIsFirstUsable(atts[1..]);
      var k :| FirstUsableAt(atts[1..], k) &&
               ScanAttachments(atts[1..]).attachment == AttachmentOf(atts[1..][k].fields);
      assert FirstUsableAt(atts, k + 1) by {
        forall j | 0 <= j < k + 1 ensures UrlLess(atts[j]) {
          if j > 0 { assert atts[j] == atts[1..][j - 1]; }
        }
      }
    }
  }

  /** A list comes up empty exactly when every entry is an attachment object
      without a usable url; a list of only url-less attachments therefore does
      not stop the outer loop. */
  lemma {:induction false} ScanAttachmentsExhaustedIffUrlLess(atts: seq<Json>)
    ensures ScanAttachments(atts) == Exhausted <==> forall j :: 0 <= j < |atts| ==> UrlLess(atts[j])
  {
    if atts != [] {
      ScanAttachmentsExhaustedIffUrlLess(atts[1..]);
      if UrlLess(atts[0]) {
        forall j | 0 <= j < |atts[1..]| ensures atts[1..][j] == atts[j + 1] { }
        assert (forall j :: 0 <= j < |atts| ==> UrlLess(atts[j])) <==>
               (forall j :: 0 <= j < |atts[1..]| ==> UrlLess(atts[1..][j])) by {
          if forall j :: 0 <= j < |atts[1..]| ==> UrlLess(atts[1..][j]) {
            forall j | 0 <= j < |atts| ensures UrlLess(atts[j]) {
              if j > 0 { assert atts[j] == atts[1..][j - 1]; }
            }
          }
        }
      }
    }
  }

  // ---------------------------------------------------------------------------
  // One record
  // ---------------------------------------------------------------------------

  /** A record is passed over exactly when its `fields` (default `{}`) is a
      dict and the named field (default `[]`) is not a list, or is a list of
      url-less attachments (the empty list among them). */
  lemma ScanRecordExhaustedIff(record: Json, field: string)
    ensures ScanRecord(record, field) == Exhausted <==>
      FieldData(record, field).Ok? &&
      (var data := FieldData(record, field).value;
       !data.JArray? || forall j :: 0 <= j < |data.items| ==> UrlLess(data.items[j]))
  {
    if FieldData(record, field).Ok? && FieldData(record, field).value.JArray? {
      ScanAttachmentsExhaustedIffUrlLess(FieldData(record, field).value.items);
    }
  }

  /** A record without `fields` is treated as having none and is passed over. */
  lemma RecordWithoutFieldsSkipped(record: Json, field: string)
    requires record.JObject? && "fields" !in record.fields
    ensures ScanRecord(record, field) == Exhausted
  {
  }

  /** A record whose named field is absent, is not a list or is an empty list
      is passed over. */
  lemma RecordWithoutListSkipped(record: Json, field: string)
    requires record.JObject? && "fields" in record.fields && record.fields["fields"].JObject?
    requires var fields := record.fields["fields"].fields;
             field !in fields || !fields[field].JArray? || fields[field].items == []
    ensures ScanRecord(record, field) == Exhausted
  {
  }

  // ---------------------------------------------------------------------------
  // The record list
  // ---------------------------------------------------------------------------

  /** The first record that does not come up empty decides the result. */
  lemma {:induction false} SelectIsFirstDecisive(records: seq<Json>, field: string, i: int)
    requires FirstDecisiveAt(records, field, i)
    ensures Select(records, field) == ScanRecord(records[i], field)
  {
    if i > 0 {
      assert FirstDecisiveAt(records[1..], field, i - 1) by {
        forall j | 0 <= j < i - 1 ensures ScanRecord(records[1..][j], field) == Exhausted {
          assert records[1..][j] == records[j + 1];
        }
      }
      SelectIsFirstDecisive(records[1..], field, i - 1);
    }
  }

  /** Nothing is selected exactly when every record comes up empty. */
  lemma {:induction false} SelectExhaustedIffAllEmpty(records: seq<Json>, field: string)
    ensures Select(records, field) == Exhausted <==>
            forall j :: 0 <= j < |records| ==> ScanRecord(records[j], field) == Exhausted
  {
    if records != [] {
      SelectExhaustedIffAllEmpty(records[1..], field);
      if ScanRecord(records[0], field) == Exhausted {
        if forall j :: 0 <= j < |records[1..]| ==> ScanRecord(records[1..][j], field) == Exhausted {
          forall j | 0 <= j < |records| ensures ScanRecord(records[j], field) == Exhausted {
            if j > 0 { assert records[j] == records[1..][j - 1]; }
          }
        }
        if forall j :: 0 <= j < |records| ==> ScanRecord(records[j], field) == Exhausted {
          forall j | 0 <= j < |records[1..]| ensures ScanRecord(records[1..][j], field) == Exhausted {
            assert records[1..][j] == records[j + 1];
          }
        }
      }
    }
  }

  /** A decided selection comes from the earliest decisive record. */
  lemma {:induction false} SelectComesFromFirstDecisive(records: seq<Json>, field: string)
    requires !Select(records, field).Exhausted?
    ensures exists i :: FirstDecisiveAt(records, field, i) &&
                        Select(records, field) == ScanRecord(records[i], field)
  {
    if !ScanRecord(records[0], field).Exhausted? {
      assert FirstDecisiveAt(records, field, 0);
    } else {
      SelectComesFromFirstDecisive(records[1..], field);
      var i :| FirstDecisiveAt(records[1..], field, i) &&
               Select(records[1..], field) == ScanRecord(records[1..][i], field);
      assert FirstDecisiveAt(records, field, i + 1) by {
        forall j | 0 <= j < i + 1 ensures ScanRecord(records[j], field) == Exhausted {
          if j > 0 { assert records[j] == records[1..][j - 1]; }
        }
      }
    }
  }

  // ---------------------------------------------------------------------------
  // The whole lookup
  // ---------------------------------------------------------------------------

  /** A status other than 200 gives None and `save_file` is never called. */
  lemma NonOkStatusIsNoFile(status: int, body: Json, field: string, disk: Disk)
    requires status != 200
    ensures Lookup(Replied(status, body), field, disk) == NoFile
    ensures SaveCalls(Replied(status, body), field) == []
  {
  }

  /** A body without "records" is treated as an empty record list. */
  lemma MissingRecordsIsNoFile(fields: map<string, Json>, field: string, disk: Disk)
    requires "records" !in fields
    ensures Lookup(Replied(200, JObject(fields)), field, disk) == NoFile
    ensures SaveCalls(Replied(200, JObject(fields)), field) == []
  {
  }

  /** `save_file` runs at most once, and the lookup returns a path only from
      that call, unchanged. */
  lemma SaveAtMostOnce(reply: Reply, field: string, disk: Disk)
    ensures |SaveCalls(reply, field)| <= 1
    ensures Lookup(reply, field, disk).Path? ==>
              |SaveCalls(reply, field)| == 1 &&
              SaveFile(SaveCalls(reply, field)[0], disk) == Ok(Lookup(reply, field, disk).path)
  {
  }

  /** The end-to-end selection: with record i the first decisive record and
      attachment k the first usable one in its field, `save_file` is called
      once with that attachment's url and file name (default "unknown_file"),
      and its result is what the lookup returns. */
  lemma LookupChoosesEarliestAttachment(body: Json, records: seq<Json>, field: string, disk: Disk, i: int, k: int)
    requires body.JObject? && "records" in body.fields && body.fields["records"] == JArray(records)
    requires 0 <= i < |records|
    requires forall j :: 0 <= j < i ==> ScanRecord(records[j], field) == Exhausted
    requires FieldData(records[i], field).Ok? && FieldData(records[i], field).value.JArray?
    requires FirstUsableAt(FieldData(records[i], field).value.items, k)
    ensures var a := AttachmentOf(FieldData(records[i], field).value.items[k].fields);
            var reply := Replied(200, body);
            && SaveCalls(reply, field) == [a]
            && a.filename == Get(FieldData(records[i], field).value.items[k].fields,
                                 "filename", JString(UNKNOWN_FILE))
            && Lookup(reply, field, disk) ==
                 (if SaveFile(a, disk).Ok? then Path(SaveFile(a, disk).value)
                  else Failed(SaveFile(a, disk).error))
  {
    var atts := FieldData(records[i], field).value.items;
    ScanAttachmentsFindsFirstUsable(atts, k);
    SelectIsFirstDecisive(records, field, i);
  }

  // ---------------------------------------------------------------------------
  // The saved path
  // ---------------------------------------------------------------------------

  /** A relative file name is placed directly under the output directory. */
  lemma SavedPathUnderOutputDir(a: Attachment, disk: Disk)
    requires SaveFile(a, disk).Ok?
    requires a.filename.s == [] || a.filename.s[0] != '/'
    ensures SaveFile(a, disk).value == OUTPUT_DIR + "/" + a.filename.s
  {
  }

  /** The base name of a path ending in a separator followed by a name
      without separators is that name. */
  lemma {:induction false} BasenameAfterSeparator(p: string, name: string)
    requires p == [] || p[|p| - 1] == '/'
    requires '/' !in name
    ensures Basename(p + name) == name
  {
    if name == [] {
      assert p + name == p;
    } else {
      var init := name[..|name| - 1];
      assert (p + name)[..|p + name| - 1] == p + init;
      assert '/' !in init by {
        forall c | c in init ensures c in name { }
      }
      BasenameAfterSeparator(p, init);
      assert init + [name[|name| - 1]] == name;
    }
  }

  /** The download name of a saved file is the file name, for a name without
      separators. */
  lemma BasenameOfJoin(dir: string, name: string)
    requires '/' !in name
    ensures Basename(JoinPath(dir, name)) == name
  {
    assert !(|name| > 0 && name[0] == '/') by {
      if |name| > 0 { assert name[0] in name; }
    }
    if dir == [] || dir[|dir| - 1] == '/' {
      BasenameAfterSeparator(dir, name);
    } else {
      assert dir + "/" + name == (dir + "/") + name;
      BasenameAfterSeparator(dir + "/", name);
    }
  }
}
