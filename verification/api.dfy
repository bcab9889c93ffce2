/** The upload gateway, as far as the workers depend on it: creating the
    record every worker starts from, and looking a record up by id. */
module Api {
  import opened Options
  import opened ObjectIds
  import opened Paths
  import opened Records

  const DefaultUploadDir: string := "uploaded_images"
  /** `UPLOAD_DIR`, or the default directory when it is unset. */
  function UploadDirSetting(setting: Option<string>): string {
    setting.GetOr(DefaultUploadDir)
  }

  const CreatedMessage: string := "File uploaded and document created in MongoDB."

  datatype UploadResponse =
    | Created(id: string, filename: string, message: string)
    | UploadError(status: int, detail: string)
  {
    function Status(): int {
      match this
      case Created(_, _, _) => 201
      case UploadError(status, _) => status
    }
  }

  datatype LookupResponse =
    | Document(id: string, record: Record)
    | LookupError(status: int, detail: string)

  /** The document `upload_image` inserts: source set, every extraction field
      `None`, so that every worker selects it. */
  function NewRecord(filename: string, filepath: string): (r: Record)
    ensures r.filename == Some(filename) && r.filepath == Some(filepath) && r.uploaded
    ensures forall f :: r.Pending(f)
  {
    Record(Some(filename), Some(filepath), true, None, None, None, None, None)
  }

  /** How `insert_one` ended. It can raise after the server has stored the
      document, for example on a network error after the write or a write
      concern error, so storing and raising are separate events. */
  datatype InsertOutcome =
    | Acknowledged
    | RaisedAfterStoring
    | RaisedUnstored
  {
    /** Whether the document reached the store. */
    predicate Stored() {
      !RaisedUnstored?
    }
  }

  /** `upload_image`. `saved` is whether writing the file succeeded, `newId`
      the id the driver assigns, `insert` how `insert_one` ended; an id
      already present is a duplicate-key error, which stores nothing. */
  function UploadImage(s: Store, uploadDir: string, filename: Option<string>,
                       saved: bool, newId: ObjectId, insert: InsertOutcome): (res: (Store, UploadResponse))
    ensures res.1 == UploadError(400, "No file provided") <==> filename.None? || filename.value == ""
    ensures res.1.Status() == 500 <==>
      filename.Some? && filename.value != "" && (!saved || !insert.Acknowledged? || newId in s)
    ensures res.1.Created? <==> filename.Some? && filename.value != "" && saved && insert.Acknowledged? && newId !in s
    ensures res.1.Created? ==>
      && res.1.Status() == 201
      && res.1.id == Str(newId) && res.1.filename == filename.value
    ensures res.0 != s <==> filename.Some? && filename.value != "" && saved && insert.Stored() && newId !in s
    ensures res.0 != s ==>
      && res.0 == s[newId := NewRecord(filename.value, Join(uploadDir, filename.value))]
      && |res.0| == |s| + 1
  {
    if filename.None? || filename.value == "" then (s, UploadError(400, "No file provided"))
    else
      var name := filename.value;
      var filepath := Join(uploadDir, name);
      if !saved then (s, UploadError(500, "File save failed"))
      else if newId in s || insert.RaisedUnstored? then (s, UploadError(500, "Database insert failed"))
      else
        var s' := s[newId := NewRecord(name, filepath)];
        assert newId in s' && newId !in s;
        if insert.RaisedAfterStoring? then (s', UploadError(500, "Database insert failed"))
        else (s', Created(Str(newId), name, CreatedMessage))
  }

  /** `serialize_doc`: the document with its id as text, which reads back as
      the same id. */
  function Serialize(id: ObjectId, r: Record): (d: LookupResponse)
    ensures d.Document? && d.record == r && Parse(d.id) == Some(id)
  {
    StrRoundTrip(id);
    Document(Str(id), r)
  }

  /** `get_image_metadata`. `queried` is whether `find_one` returned without
      raising. */
  function GetImageMetadata(s: Store, imageId: string, queried: bool): (res: LookupResponse)
    ensures res == LookupError(400, "Invalid ID format") <==> Parse(imageId).None? || !queried
    ensures res == LookupError(404, "Record not found") <==> Parse(imageId).Some? && queried && Parse(imageId).value !in s
    ensures res.Document? <==> Parse(imageId).Some? && queried && Parse(imageId).value in s
    ensures res.Document? ==> res.record == s[Parse(imageId).value] && res.id == LowerHex(imageId)
  {
    match Parse(imageId)
    case None => LookupError(400, "Invalid ID format")
    case Some(id) =>
      if !queried then LookupError(400, "Invalid ID format")
      else if id !in s then LookupError(404, "Record not found")
      else Serialize(id, s[id])
  }

  /** The id returned by a successful upload finds the inserted record. */
  lemma UploadThenLookup(s: Store, uploadDir: string, filename: Option<string>, saved: bool, newId: ObjectId, insert: InsertOutcome)
    requires UploadImage(s, uploadDir, filename, saved, newId, insert).1.Created?
    ensures var (s', resp) := UploadImage(s, uploadDir, filename, saved, newId, insert);
      GetImageMetadata(s', resp.id, true) == Document(resp.id, NewRecord(filename.value, Join(uploadDir, filename.value)))
  {
    StrRoundTrip(newId);
  }

  /** Uploading one file name twice stores one path twice: two records,
      under two ids, with the same `filepath`. */
  lemma UploadTwiceSharesPath(s: Store, dir: string, name: string, id1: ObjectId, id2: ObjectId)
    requires UploadImage(s, dir, Some(name), true, id1, Acknowledged).1.Created?
    requires UploadImage(UploadImage(s, dir, Some(name), true, id1, Acknowledged).0, dir, Some(name), true, id2, Acknowledged).1.Created?
    ensures var s2 := UploadImage(UploadImage(s, dir, Some(name), true, id1, Acknowledged).0, dir, Some(name), true, id2, Acknowledged).0;
      && id1 != id2 && |s2| == |s| + 2
      && s2[id1].filepath == s2[id2].filepath == Some(Join(dir, name))
  {
  }

  /** The upload path is joined, not sanitised: an absolute file name is
      stored, and written, as it is, outside the upload directory. */
  lemma AbsoluteFilenameEscapesUploadDir(s: Store, dir: string, name: string, id: ObjectId)
    requires IsAbsolute(name)
    requires UploadImage(s, dir, Some(name), true, id, Acknowledged).1.Created?
    ensures UploadImage(s, dir, Some(name), true, id, Acknowledged).0[id].filepath == Some(name)
  {
  }

  /** With `UPLOAD_DIR` unset, a relative file name is stored under
      "uploaded_images/". */
  lemma DefaultUploadPath(s: Store, name: string, id: ObjectId)
    requires !IsAbsolute(name)
    requires UploadImage(s, UploadDirSetting(None), Some(name), true, id, Acknowledged).1.Created?
    ensures UploadImage(s, UploadDirSetting(None), Some(name), true, id, Acknowledged).0[id].filepath
         == Some("uploaded_images/" + name)
  {
    assert DirPrefix(UploadDirSetting(None)) == "uploaded_images/";
  }

  /** An insert that raises after storing answers 500, yet the all-pending
      record is in the collection under the driver's id, and every worker
      will select it. */
  lemma FailedResponseStillStored(s: Store, dir: string, name: string, id: ObjectId)
    requires name != "" && id !in s
    ensures var (s', resp) := UploadImage(s, dir, Some(name), true, id, RaisedAfterStoring);
      && resp == UploadError(500, "Database insert failed")
      && id in s' && forall f :: s'[id].Pending(f)
  {
  }
}
