/**
  The five handlers of the `/files` router, each a pure transition from the
  stores and one request to a response, the new stores, and the store calls
  it attempted in order. The requester is the email carried by the verified
  token; Firestore's generated id, `Date.now()`, the ISO time string and the
  calls that throw are inputs.
 */
module FileRoutes {
  import opened Wrappers
  import opened Store
  import opened Access
  import opened Naming

  /** The part of a multer upload the handler reads. */
  datatype UploadedFile = UploadedFile(originalName: string, buffer: seq<Byte>, mimeType: string)

  /** One element of the listing: `{fileID, fileName, downloadLink}`. */
  datatype Entry = Entry(fileID: Id, fileName: string, downloadLink: string)

  datatype Body =
    | Message(message: string)
    | Uploaded(message: string, fileURL: string, fileId: Id)
    | Listing(note: Option<string>, files: seq<Entry>)
    | Attachment(contentDisposition: string, contentType: string, blobName: string)
      /** A caught store error; the error's own text is not modelled. */
    | Failure(message: string)

  datatype Response = Response(status: int, body: Body)

  /** The outcome of one request. */
  datatype Step = Step(response: Response, state: State, trace: seq<Call>)

  const OctetStream: string := "application/octet-stream"

  function ToEntry(id: Id, r: FileRecord): Entry {
    Entry(id, r.fileName, r.fileURL)
  }

  function Ids(es: seq<Entry>): (ids: seq<Id>)
    ensures |ids| == |es|
    ensures forall i :: 0 <= i < |es| ==> ids[i] == es[i].fileID
  {
    if |es| == 0 then [] else [es[0].fileID] + Ids(es[1..])
  }

  /** `a` is `b` with some elements left out, the rest kept in order. */
  predicate IsSubsequence<T(==)>(a: seq<T>, b: seq<T>)
    decreases |b|
  {
    if |b| == 0 then |a| == 0
    else (|a| > 0 && a[0] == b[0] && IsSubsequence(a[1..], b[1..])) || IsSubsequence(a, b[1..])
  }

  /** `snapshot` lists every document id of the collection exactly once: the
      order in which the document store returns the collection. */
  predicate Enumerates(snapshot: seq<Id>, keys: set<Id>) {
    && (forall i :: 0 <= i < |snapshot| ==> snapshot[i] in keys)
    && (forall k :: k in keys ==> k in snapshot)
    && (forall i, j :: 0 <= i < j < |snapshot| ==> snapshot[i] != snapshot[j])
  }

  /** The listing entries of the documents in `snapshot` that `who` may read. */
  function VisibleEntries(files: map<Id, FileRecord>, snapshot: seq<Id>, who: Email): (es: seq<Entry>)
    requires forall k :: k in snapshot ==> k in files
    ensures forall k :: k in Ids(es) <==> k in snapshot && CanRead(files[k], who)
    ensures forall i :: 0 <= i < |es| ==> es[i].fileID in files && es[i] == ToEntry(es[i].fileID, files[es[i].fileID])
    ensures IsSubsequence(Ids(es), snapshot)
    decreases |snapshot|
  {
    if |snapshot| == 0 then []
    else
      var id := snapshot[0];
      var rest := VisibleEntries(files, snapshot[1..], who);
      if CanRead(files[id], who) then
        var es := [ToEntry(id, files[id])] + rest;
        assert es[1..] == rest;
        es
      else
        rest
  }

  /** The `Content-Disposition` header naming the stored object. */
  function Disposition(fileName: string): string {
    "attachment; filename=\"" + fileName + "\""
  }

  /** A character Node's `res.setHeader` accepts in a header value: tab,
      printable ASCII, or a code point from 0x80 to 0xFF. */
  predicate HeaderChar(c: char) {
    c == '\t' || (' ' <= c <= '~') || (0x80 <= c as int <= 0xFF)
  }

  /** A header value `res.setHeader` sets without throwing. */
  predicate HeaderSafe(v: string) {
    forall i :: 0 <= i < |v| ==> HeaderChar(v[i])
  }

  /** The `Content-Type` the download route sends: the record's own, or the generic one. */
  function ContentTypeOf(rec: FileRecord): string {
    OrElse(rec.contentType, OctetStream)
  }

  /** Both download headers of `rec` are accepted. */
  predicate HeadersSafe(rec: FileRecord) {
    HeaderSafe(Disposition(rec.fileName)) && HeaderSafe(ContentTypeOf(rec))
  }

  /** The download route gets past `bucket.file(fileName)`, which throws on an
      empty name, and past both `res.setHeader` calls. */
  predicate Servable(rec: FileRecord) {
    rec.fileName != "" && HeadersSafe(rec)
  }

  /** POST /files/upload (src/routes/fileRoutes.js:15-61). */
  function Upload(s: State, bucket: string, who: Email, file: Option<UploadedFile>, accessType: Option<string>,
                  now: nat, isoNow: string, newId: Id, faults: set<Call>): (r: Step)
    requires newId !in s.files
    ensures r.response.status in {201, 400, 500}
    // no file: refused before any store is touched
    ensures file.None? <==> r.response.status == 400
    ensures file.None? ==> r.state == s && r.trace == []
    // otherwise the object is written first, the record second
    ensures file.Some? ==>
      && 1 <= |r.trace| <= 2
      && r.trace[0] == SaveBlob(StorageName(now, file.value.originalName),
                                Blob(file.value.buffer, file.value.mimeType, OrElse(accessType, Private)))
      && (|r.trace| == 2 <==> Succeeds(s, r.trace[0], faults))
      && (|r.trace| == 2 ==> r.trace[1].AddDoc? && r.trace[1].id == newId)
    // a failed object write changes nothing
    ensures file.Some? && r.trace[0] in faults ==> r.response.status == 500 && r.state == s
    // the record is added only after the object exists, and only on success
    ensures r.response.status != 201 ==> r.state.files == s.files
    ensures r.response.status == 201 <==> newId in r.state.files
    ensures r.state.files.Keys <= s.files.Keys + {newId}
    ensures forall id :: id in s.files ==> id in r.state.files && r.state.files[id] == s.files[id]
    ensures newId in r.state.files ==>
      && file.Some?
      && var rec := r.state.files[newId];
      && rec.fileName == StorageName(now, file.value.originalName)
      && rec.fileURL == FileURL(bucket, rec.fileName)
      && rec.uploadedBy == who
      && rec.accessType == (if accessType.Some? && accessType.value != "" then accessType.value else Private)
      && rec.uploadedAt == isoNow
      && rec.contentType.None?
      && rec.fileName in r.state.blobs
      && r.state.blobs[rec.fileName].content == file.value.buffer
      && r.response.body == Uploaded("File uploaded", rec.fileURL, newId)
    // the bucket gains at most the one object and loses none
    ensures file.Some? ==> r.state.blobs.Keys <= s.blobs.Keys + {StorageName(now, file.value.originalName)}
    ensures forall name :: name in s.blobs ==> name in r.state.blobs
    ensures forall name :: name in s.blobs && (file.None? || name != StorageName(now, file.value.originalName)) ==>
      r.state.blobs[name] == s.blobs[name]
  {
    if file.None? then
      Step(Response(400, Message("No file uploaded")), s, [])
    else
      var f := file.value;
      var fileName := StorageName(now, f.originalName);
      var access := OrElse(accessType, Private);
      var save := SaveBlob(fileName, Blob(f.buffer, f.mimeType, access));
      if !Succeeds(s, save, faults) then
        Step(Response(500, Failure("Error uploading file")), s, [save])
      else
        var saved := Apply(s, save);
        var url := FileURL(bucket, fileName);
        var add := AddDoc(newId, FileRecord(fileName, url, who, access, isoNow, None));
        if !Succeeds(saved, add, faults) then
          Step(Response(500, Failure("Error uploading file")), saved, [save, add])
        else
          Step(Response(201, Uploaded("File uploaded", url, newId)), Apply(saved, add), [save, add])
  }

  /** GET /files (src/routes/fileRoutes.js:67-98). */
  function List(s: State, who: Email, snapshot: seq<Id>, faults: set<Call>): (r: Step)
    requires Enumerates(snapshot, s.files.Keys)
    ensures r.state == s
    ensures r.trace == [ListDocs]
    ensures r.response.status in {200, 500}
    ensures r.response.status == 500 <==> ListDocs in faults
    ensures r.response.status == 200 ==>
      && r.response.body.Listing?
      && var es := r.response.body.files;
      && (forall k :: k in Ids(es) <==> k in s.files && CanRead(s.files[k], who))
      && (forall i :: 0 <= i < |es| ==> es[i].fileID in s.files && es[i] == ToEntry(es[i].fileID, s.files[es[i].fileID]))
      && IsSubsequence(Ids(es), snapshot)
    // an empty collection is answered with a note; a non-empty one without
    ensures r.response.status == 200 ==> (r.response.body.note.Some? <==> |s.files| == 0)
    ensures r.response.status == 200 && |s.files| == 0 ==> r.response.body == Listing(Some("No files found"), [])
  {
    if !Succeeds(s, ListDocs, faults) then
      Step(Response(500, Failure("Error fetching files")), s, [ListDocs])
    else if |snapshot| == 0 then
      assert s.files.Keys == {};
      Step(Response(200, Listing(Some("No files found"), [])), s, [ListDocs])
    else
      assert snapshot[0] in s.files;
      Step(Response(200, Listing(None, VisibleEntries(s.files, snapshot, who))), s, [ListDocs])
  }

  /** GET /files/download/:fileId (src/routes/fileRoutes.js:104-138): the
      decision and the headers; the answer names the object to stream. */
  function Download(s: State, who: Email, id: Id, faults: set<Call>): (r: Step)
    ensures r.state == s
    ensures r.trace == [GetDoc(id)]
    ensures r.response.status in {200, 403, 404, 500}
    ensures GetDoc(id) !in faults ==> (r.response.status == 404 <==> id !in s.files)
    ensures GetDoc(id) !in faults && id in s.files ==> (r.response.status == 403 <==> !CanRead(s.files[id], who))
    // a failed lookup, an empty object name, or a header value `res.setHeader` rejects, is caught as 500
    ensures r.response.status == 500 <==>
      GetDoc(id) in faults || (id in s.files && CanRead(s.files[id], who) && !Servable(s.files[id]))
    ensures r.response.status == 200 <==>
      GetDoc(id) !in faults && id in s.files && CanRead(s.files[id], who) && Servable(s.files[id])
    ensures r.response.status == 200 ==>
      && id in s.files
      && var rec := s.files[id];
      && r.response.body.Attachment?
      && r.response.body.blobName == rec.fileName
      && r.response.body.contentDisposition == Disposition(rec.fileName)
      && r.response.body.contentType == (if rec.contentType.Some? && rec.contentType.value != "" then rec.contentType.value else OctetStream)
  {
    var get := GetDoc(id);
    if !Succeeds(s, get, faults) then
      Step(Response(500, Failure("Error downloading file")), s, [get])
    else if id !in s.files then
      Step(Response(404, Message("File not found")), s, [get])
    else
      var rec := s.files[id];
      if !CanRead(rec, who) then
        Step(Response(403, Message("Access denied")), s, [get])
      else if !Servable(rec) then
        Step(Response(500, Failure("Error downloading file")), s, [get])
      else
        Step(Response(200, Attachment(Disposition(rec.fileName), ContentTypeOf(rec), rec.fileName)), s, [get])
  }

  /** DELETE /files/:fileId (src/routes/fileRoutes.js:162-189). */
  function Delete(s: State, who: Email, id: Id, faults: set<Call>): (r: Step)
    ensures r.response.status in {200, 403, 404, 500}
    ensures 1 <= |r.trace| <= 3 && r.trace[0] == GetDoc(id)
    ensures GetDoc(id) in faults ==> r.response.status == 500 && r.state == s && |r.trace| == 1
    ensures GetDoc(id) !in faults ==> (r.response.status == 404 <==> id !in s.files)
    ensures GetDoc(id) !in faults && id in s.files ==> (r.response.status == 403 <==> !CanModify(s.files[id], who))
    ensures r.response.status in {403, 404} ==> r.state == s && |r.trace| == 1
    // an owner's delete removes the object first, then the record
    ensures |r.trace| > 1 ==>
      && id in s.files && CanModify(s.files[id], who)
      && r.trace[1] == DeleteBlob(s.files[id].fileName)
      && (|r.trace| == 3 <==> Succeeds(s, r.trace[1], faults))
      && (|r.trace| == 3 ==> r.trace[2] == DeleteDoc(id))
    // the object delete failing stops before the record is touched
    ensures |r.trace| == 2 ==> r.response.status == 500 && r.state == s
    // the record delete failing leaves the record without its object
    ensures |r.trace| == 3 && DeleteDoc(id) in faults ==>
      r.response.status == 500 && r.state == s.(blobs := s.blobs - {s.files[id].fileName})
    ensures r.response.status == 200 <==> |r.trace| == 3 && DeleteDoc(id) !in faults
    // an owner's delete goes ahead exactly when neither delete throws
    ensures GetDoc(id) !in faults && id in s.files && CanModify(s.files[id], who) ==> |r.trace| >= 2
    ensures r.response.status == 200 <==>
      && GetDoc(id) !in faults && id in s.files && CanModify(s.files[id], who)
      && Succeeds(s, DeleteBlob(s.files[id].fileName), faults) && DeleteDoc(id) !in faults
    ensures r.response.status == 200 ==>
      r.state == State(s.files - {id}, s.blobs - {s.files[id].fileName})
  {
    var get := GetDoc(id);
    if !Succeeds(s, get, faults) then
      Step(Response(500, Failure("Error deleting file")), s, [get])
    else if id !in s.files then
      Step(Response(404, Message("File not found")), s, [get])
    else
      var rec := s.files[id];
      if !CanModify(rec, who) then
        Step(Response(403, Message("Unauthorized to delete this file")), s, [get])
      else
        var removeBlob := DeleteBlob(rec.fileName);
        if !Succeeds(s, removeBlob, faults) then
          Step(Response(500, Failure("Error deleting file")), s, [get, removeBlob])
        else
          var removed := Apply(s, removeBlob);
          var removeDoc := DeleteDoc(id);
          if !Succeeds(removed, removeDoc, faults) then
            Step(Response(500, Failure("Error deleting file")), removed, [get, removeBlob, removeDoc])
          else
            Step(Response(200, Message("File deleted successfully")), Apply(removed, removeDoc), [get, removeBlob, removeDoc])
  }

  /** PATCH /files/:fileId/access (src/routes/fileRoutes.js:195-230). */
  function UpdateAccessType(s: State, who: Email, id: Id, accessType: Option<string>, faults: set<Call>): (r: Step)
    ensures r.response.status in {200, 400, 403, 404, 500}
    // the value is checked before any lookup
    ensures r.response.status == 400 <==> !(accessType.Some? && IsAccessType(accessType.value))
    ensures r.response.status == 400 ==> r.state == s && r.trace == []
    ensures r.response.status != 400 ==> |r.trace| >= 1 && r.trace[0] == GetDoc(id)
    // no write is attempted before existence and ownership are established
    ensures r.response.status in {403, 404} || (r.response.status == 500 && GetDoc(id) in faults) ==>
      r.trace == [GetDoc(id)]
    ensures r.response.status != 400 && GetDoc(id) !in faults ==> (r.response.status == 404 <==> id !in s.files)
    ensures r.response.status != 400 && GetDoc(id) !in faults && id in s.files ==>
      (r.response.status == 403 <==> !CanModify(s.files[id], who))
    ensures r.response.status != 400 && GetDoc(id) in faults ==> r.response.status == 500
    ensures r.response.status == 500 <==>
      && accessType.Some? && IsAccessType(accessType.value)
      && (GetDoc(id) in faults || (id in s.files && CanModify(s.files[id], who) && UpdateAccess(id, accessType.value) in faults))
    // an owner's valid update goes ahead exactly when neither call throws
    ensures r.response.status == 200 <==>
      && accessType.Some? && IsAccessType(accessType.value)
      && GetDoc(id) !in faults && id in s.files && CanModify(s.files[id], who)
      && UpdateAccess(id, accessType.value) !in faults
    ensures r.response.status != 200 ==> r.state == s
    // success changes that record's access type and nothing else
    ensures r.response.status == 200 ==>
      && accessType.Some? && IsAccessType(accessType.value)
      && id in s.files && CanModify(s.files[id], who)
      && r.trace == [GetDoc(id), UpdateAccess(id, accessType.value)]
      && r.state.blobs == s.blobs
      && r.state.files.Keys == s.files.Keys
      && r.state.files[id] == s.files[id].(accessType := accessType.value)
      && (forall other :: other in s.files && other != id ==> r.state.files[other] == s.files[other])
  {
    if !(accessType.Some? && IsAccessType(accessType.value)) then
      Step(Response(400, Message("Invalid access type. Must be 'public' or 'private'.")), s, [])
    else
      var get := GetDoc(id);
      if !Succeeds(s, get, faults) then
        Step(Response(500, Failure("Internal server error.")), s, [get])
      else if id !in s.files then
        Step(Response(404, Message("File not found.")), s, [get])
      else if !CanModify(s.files[id], who) then
        Step(Response(403, Message("You do not have permission to modify this file.")), s, [get])
      else
        var update := UpdateAccess(id, accessType.value);
        if !Succeeds(s, update, faults) then
          Step(Response(500, Failure("Internal server error.")), s, [get, update])
        else
          Step(Response(200, Message("File access type updated successfully.")), Apply(s, update), [get, update])
  }

  /** A request to the router; the requester travels separately. */
  datatype Request =
    | UploadRequest(file: Option<UploadedFile>, accessType: Option<string>)
    | ListRequest
    | DownloadRequest(id: Id)
    | DeleteRequest(id: Id)
    | UpdateAccessRequest(id: Id, accessType: Option<string>)

  /** What the environment supplies to one request: the bucket name, the two
      clock readings, the id Firestore generates, the collection's snapshot
      order, and the store calls that throw. */
  datatype Env = Env(bucket: string, now: nat, isoNow: string, newId: Id, snapshot: seq<Id>, faults: set<Call>)

  predicate Fits(s: State, env: Env) {
    env.newId !in s.files && Enumerates(env.snapshot, s.files.Keys)
  }

  function Handle(s: State, who: Email, req: Request, env: Env): Step
    requires Fits(s, env)
  {
    match req
    case UploadRequest(file, accessType) =>
      Upload(s, env.bucket, who, file, accessType, env.now, env.isoNow, env.newId, env.faults)
    case ListRequest => List(s, who, env.snapshot, env.faults)
    case DownloadRequest(id) => Download(s, who, id, env.faults)
    case DeleteRequest(id) => Delete(s, who, id, env.faults)
    case UpdateAccessRequest(id, accessType) => UpdateAccessType(s, who, id, accessType, env.faults)
  }
}
