/**
  Properties that relate several handlers or hold of every request: the
  stores change only through the calls a handler reports, ownership is
  permanent, records and objects stay in step except on the two partial
  failures the handlers leave behind, and the upload, download, access-update
  and delete round trips.
 */
module Properties {
  import opened Wrappers
  import opened Store
  import opened Access
  import opened Naming
  import opened FileRoutes

  /** The fields no request may change once a record exists. */
  predicate SameIdentity(a: FileRecord, b: FileRecord) {
    && a.fileName == b.fileName
    && a.fileURL == b.fileURL
    && a.uploadedBy == b.uploadedBy
    && a.uploadedAt == b.uploadedAt
    && a.contentType == b.contentType
  }

  /** Every stored access type is one of the two the access-update route accepts. */
  predicate AccessTypesValid(files: map<Id, FileRecord>) {
    forall id :: id in files ==> IsAccessType(files[id].accessType)
  }

  /** `Replay` of a trace of at most three calls, written out step by step. */
  lemma ReplayOfShortTrace(s: State, t: seq<Call>, faults: set<Call>)
    requires |t| <= 3
    ensures Replay(s, t, faults) ==
      if |t| == 0 || !Succeeds(s, t[0], faults) then s
      else var s1 := Apply(s, t[0]);
        if |t| == 1 || !Succeeds(s1, t[1], faults) then s1
        else var s2 := Apply(s1, t[1]);
          if |t| == 2 || !Succeeds(s2, t[2], faults) then s2
          else Apply(s2, t[2])
  {
    if |t| >= 1 && Succeeds(s, t[0], faults) {
      var s1 := Apply(s, t[0]);
      assert Replay(s, t, faults) == Replay(s1, t[1..], faults);
      if |t| >= 2 && Succeeds(s1, t[1], faults) {
        var s2 := Apply(s1, t[1]);
        assert t[1..][1..] == t[2..];
        assert Replay(s1, t[1..], faults) == Replay(s2, t[2..], faults);
        if |t| == 3 && Succeeds(s2, t[2], faults) {
          assert t[2..][1..] == [];
          assert Replay(s2, t[2..], faults) == Replay(Apply(s2, t[2]), [], faults);
        }
      }
    }
  }

  /** Whatever a handler answers, the stores hold exactly what replaying its
      reported calls produces: no effect happens outside the calls, and none
      after the first call that throws. */
  lemma HandleEffectsAreItsCalls(s: State, who: Email, req: Request, env: Env)
    requires Fits(s, env)
    ensures var r := Handle(s, who, req, env); r.state == Replay(s, r.trace, env.faults)
  {
    var r := Handle(s, who, req, env);
    ReplayOfShortTrace(s, r.trace, env.faults);
  }

  /** No request changes a record's name, URL, owner, upload time or content
      type; only its access type may change. */
  lemma OwnershipIsPermanent(s: State, who: Email, req: Request, env: Env)
    requires Fits(s, env)
    ensures var r := Handle(s, who, req, env);
      forall id :: id in s.files && id in r.state.files ==> SameIdentity(s.files[id], r.state.files[id])
  {
  }

  /** A record's access type changes only through a successful access update
      by its owner, and only to one of the two accepted values. */
  lemma AccessChangesOnlyByOwner(s: State, who: Email, req: Request, env: Env, id: Id)
    requires Fits(s, env)
    requires id in s.files
    ensures var r := Handle(s, who, req, env);
      id in r.state.files && r.state.files[id].accessType != s.files[id].accessType ==>
        && req.UpdateAccessRequest? && req.id == id
        && CanModify(s.files[id], who)
        && r.response.status == 200
        && r.state.files[id].accessType == req.accessType.value
        && IsAccessType(req.accessType.value)
  {
  }

  /** A record disappears only through a successful delete by its owner. */
  lemma RecordRemovedOnlyByOwner(s: State, who: Email, req: Request, env: Env, id: Id)
    requires Fits(s, env)
    requires id in s.files
    ensures var r := Handle(s, who, req, env);
      id !in r.state.files ==>
        && req.DeleteRequest? && req.id == id
        && CanModify(s.files[id], who)
        && r.response.status == 200
        && s.files[id].fileName !in r.state.blobs
  {
  }

  /** The upload route stores whatever access type the client sent: access
      types stay within {public, private} under every request except an upload
      that names another value, and such an upload always breaks it. */
  lemma AccessTypesStayValidExceptUpload(s: State, who: Email, req: Request, env: Env)
    requires Fits(s, env)
    requires AccessTypesValid(s.files)
    ensures var r := Handle(s, who, req, env);
      AccessTypesValid(r.state.files) <==>
        !(req.UploadRequest? && r.response.status == 201 && !IsAccessType(OrElse(req.accessType, Private)))
  {
  }

  /** Writing the object before the record means no upload ever leaves a
      record whose object is missing. */
  lemma UploadKeepsRecordsBacked(s: State, bucket: string, who: Email, file: Option<UploadedFile>,
                                 accessType: Option<string>, now: nat, isoNow: string, newId: Id, faults: set<Call>)
    requires newId !in s.files
    requires NoDanglingRecords(s)
    ensures NoDanglingRecords(Upload(s, bucket, who, file, accessType, now, isoNow, newId, faults).state)
  {
  }

  lemma NamesInUseAdd(files: map<Id, FileRecord>, id: Id, rec: FileRecord)
    requires id !in files
    ensures NamesInUse(files[id := rec]) == NamesInUse(files) + {rec.fileName}
  {
    var f := files[id := rec];
    forall n | n in NamesInUse(files) ensures n in NamesInUse(f) {
      var k :| k in files && files[k].fileName == n;
      assert f[k].fileName == n;
    }
    assert f[id].fileName == rec.fileName;
  }

  /** Adding a record together with a new object of its name keeps records
      and objects one-to-one. */
  lemma AddWithFreshObjectKeepsConsistency(s: State, id: Id, rec: FileRecord, blob: Blob)
    requires Consistent(s)
    requires id !in s.files
    requires rec.fileName !in s.blobs
    ensures Consistent(State(s.files[id := rec], s.blobs[rec.fileName := blob]))
  {
    var f := s.files[id := rec];
    NamesInUseAdd(s.files, id, rec);
    forall a, b | a in f && b in f && a != b
      ensures f[a].fileName != f[b].fileName
    {
      if a == id {
        assert s.files[b].fileName in s.blobs;
      } else if b == id {
        assert s.files[a].fileName in s.blobs;
      }
    }
  }

  /** An object whose name no record uses is an orphan. */
  lemma FreshObjectIsOrphan(s: State, name: string, blob: Blob)
    requires NoDanglingRecords(s)
    requires name !in s.blobs
    ensures !NoOrphanBlobs(State(s.files, s.blobs[name := blob]))
  {
    assert name !in NamesInUse(s.files);
  }

  /** With a storage name not already in the bucket, an upload keeps records
      and objects one-to-one, except when the record write fails after the
      object write: that leaves an object no record refers to. */
  lemma UploadConsistency(s: State, bucket: string, who: Email, file: Option<UploadedFile>,
                          accessType: Option<string>, now: nat, isoNow: string, newId: Id, faults: set<Call>)
    requires newId !in s.files
    requires Consistent(s)
    requires file.Some? ==> StorageName(now, file.value.originalName) !in s.blobs
    ensures var r := Upload(s, bucket, who, file, accessType, now, isoNow, newId, faults);
      Consistent(r.state) <==> !(|r.trace| == 2 && r.response.status == 500)
  {
    var r := Upload(s, bucket, who, file, accessType, now, isoNow, newId, faults);
    if file.Some? && |r.trace| == 2 {
      var name := StorageName(now, file.value.originalName);
      var blob := r.trace[0].blob;
      if r.response.status == 500 {
        assert r.state == State(s.files, s.blobs[name := blob]);
        FreshObjectIsOrphan(s, name, blob);
      } else {
        var rec := r.state.files[newId];
        assert r.state == State(s.files[newId := rec], s.blobs[rec.fileName := blob]);
        AddWithFreshObjectKeepsConsistency(s, newId, rec, blob);
      }
    }
  }

  /** `Date.now()` has millisecond resolution: two successful uploads of the
      same client file name in the same millisecond write the same object, the
      second overwriting the first, and leave two records sharing it. */
  lemma SameMillisecondUploadsShareObject(s: State, bucket: string, who1: Email, who2: Email,
                                          f1: UploadedFile, f2: UploadedFile, a1: Option<string>, a2: Option<string>,
                                          now: nat, isoNow: string, id1: Id, id2: Id)
    requires id1 !in s.files && id2 !in s.files && id1 != id2
    requires f1.originalName == f2.originalName
    ensures var u1 := Upload(s, bucket, who1, Some(f1), a1, now, isoNow, id1, {});
      var u2 := Upload(u1.state, bucket, who2, Some(f2), a2, now, isoNow, id2, {});
      && u1.response.status == 201 && u2.response.status == 201
      && u2.state.files[id1].fileName == u2.state.files[id2].fileName
      && u2.state.blobs[u2.state.files[id1].fileName].content == f2.buffer
      && !DistinctNames(u2.state.files)
  {
  }

  lemma NamesInUseRemove(files: map<Id, FileRecord>, id: Id)
    requires id in files
    requires DistinctNames(files)
    ensures NamesInUse(files - {id}) == NamesInUse(files) - {files[id].fileName}
  {
    var f := files - {id};
    forall n | n in NamesInUse(files) && n != files[id].fileName ensures n in NamesInUse(f) {
      var k :| k in files && files[k].fileName == n;
      assert f[k].fileName == n;
    }
  }

  /** An owner's delete keeps records and objects one-to-one, except when the
      record delete fails after the object delete: that leaves a record whose
      object is gone. */
  lemma DeleteConsistency(s: State, who: Email, id: Id, faults: set<Call>)
    requires Consistent(s)
    ensures var r := Delete(s, who, id, faults);
      Consistent(r.state) <==> !(|r.trace| == 3 && DeleteDoc(id) in faults)
  {
    var r := Delete(s, who, id, faults);
    if |r.trace| == 3 {
      var name := s.files[id].fileName;
      if DeleteDoc(id) in faults {
        assert name !in r.state.blobs;
        assert !NoDanglingRecords(r.state);
      } else {
        NamesInUseRemove(s.files, id);
      }
    }
  }

  lemma NamesInUseUpdate(files: map<Id, FileRecord>, id: Id, accessType: string)
    requires id in files
    ensures NamesInUse(files[id := files[id].(accessType := accessType)]) == NamesInUse(files)
  {
    var f := files[id := files[id].(accessType := accessType)];
    forall n | n in NamesInUse(files) ensures n in NamesInUse(f) {
      var k :| k in files && files[k].fileName == n;
      assert f[k].fileName == n;
    }
  }

  /** Every record's URL is the bucket prefix followed by its own object name. */
  predicate UrlsDerived(files: map<Id, FileRecord>, bucket: string) {
    forall id :: id in files ==> files[id].fileURL == FileURL(bucket, files[id].fileName)
  }

  /** Requests against one bucket keep every record's URL derived from its name. */
  lemma UrlsStayDerived(s: State, who: Email, req: Request, env: Env)
    requires Fits(s, env)
    requires UrlsDerived(s.files, env.bucket)
    ensures UrlsDerived(Handle(s, who, req, env).state.files, env.bucket)
  {
  }

  /** With URLs derived from names, records that name distinct objects carry
      distinct download links, and records sharing a link share an object. */
  lemma DistinctNamesGiveDistinctUrls(files: map<Id, FileRecord>, bucket: string, a: Id, b: Id)
    requires UrlsDerived(files, bucket)
    requires a in files && b in files
    ensures files[a].fileURL == files[b].fileURL <==> files[a].fileName == files[b].fileName
  {
    FileURLInjective(bucket, files[a].fileName, files[b].fileName);
  }

  /** An access update never disturbs the correspondence of records and objects. */
  lemma UpdateAccessKeepsConsistency(s: State, who: Email, id: Id, accessType: Option<string>, faults: set<Call>)
    requires Consistent(s)
    ensures Consistent(UpdateAccessType(s, who, id, accessType, faults).state)
  {
    var r := UpdateAccessType(s, who, id, accessType, faults);
    if r.response.status == 200 {
      var f := r.state.files;
      assert f == s.files[id := s.files[id].(accessType := accessType.value)];
      assert forall k :: k in f ==> k in s.files && f[k].fileName == s.files[k].fileName;
      NamesInUseUpdate(s.files, id, accessType.value);
      assert NoDanglingRecords(r.state);
      assert NoOrphanBlobs(r.state);
      assert DistinctNames(f);
    }
  }

  lemma HeaderSafeConcat(a: string, b: string)
    ensures HeaderSafe(a + b) <==> HeaderSafe(a) && HeaderSafe(b)
  {
    if HeaderSafe(a + b) {
      forall i | 0 <= i < |a| ensures HeaderChar(a[i]) {
        assert (a + b)[i] == a[i];
      }
      forall i | 0 <= i < |b| ensures HeaderChar(b[i]) {
        assert (a + b)[|a| + i] == b[i];
      }
    }
  }

  /** The attachment header of an uploaded file is accepted exactly when the
      client's original file name is: the timestamp, the underscore and the
      header's fixed text are all printable ASCII. */
  lemma StoredNameHeaderSafe(now: nat, originalName: string)
    ensures HeaderSafe(Disposition(StorageName(now, originalName))) <==> HeaderSafe(originalName)
  {
    var d := Decimal(now);
    assert HeaderSafe(d);
    HeaderSafeConcat(d, "_");
    HeaderSafeConcat(d + "_", originalName);
    var pre := "attachment; filename=\"";
    assert HeaderSafe(pre);
    assert HeaderSafe("\"");
    HeaderSafeConcat(pre, StorageName(now, originalName));
    HeaderSafeConcat(pre + StorageName(now, originalName), "\"");
  }

  /** Upload then download: the uploader, and anyone once the file is public,
      is served the object holding exactly the uploaded bytes, under the
      timestamp-prefixed name, with the generic content type because the
      upload never records one -- provided the original name can go in a
      header; otherwise every such download answers 500. */
  lemma UploadThenDownload(s: State, bucket: string, owner: Email, file: UploadedFile, accessType: Option<string>,
                           now: nat, isoNow: string, newId: Id, faults: set<Call>, reader: Email, faults2: set<Call>)
    requires newId !in s.files
    requires Upload(s, bucket, owner, Some(file), accessType, now, isoNow, newId, faults).response.status == 201
    requires GetDoc(newId) !in faults2
    requires reader == owner || OrElse(accessType, Private) == Public
    ensures var u := Upload(s, bucket, owner, Some(file), accessType, now, isoNow, newId, faults);
      var d := Download(u.state, reader, newId, faults2);
      && (d.response.status == 200 <==> HeaderSafe(file.originalName))
      && (d.response.status != 200 ==> d.response.status == 500)
      && (d.response.status == 200 ==>
          && d.response.body.blobName == StorageName(now, file.originalName)
          && d.response.body.contentDisposition == Disposition(StorageName(now, file.originalName))
          && d.response.body.contentType == OctetStream
          && d.response.body.blobName in u.state.blobs
          && u.state.blobs[d.response.body.blobName].content == file.buffer)
  {
    var u := Upload(s, bucket, owner, Some(file), accessType, now, isoNow, newId, faults);
    var rec := u.state.files[newId];
    assert CanRead(rec, reader);
    assert ContentTypeOf(rec) == OctetStream;
    assert HeaderSafe(OctetStream);
    StoredNameHeaderSafe(now, file.originalName);
  }

  /** After an owner's successful delete the file is gone: a later download
      answers 404, no listing shows it, and its object has left the bucket. */
  lemma DeletedFileIsGone(s: State, owner: Email, id: Id, faults: set<Call>, reader: Email, faults2: set<Call>,
                          snapshot: seq<Id>)
    requires Delete(s, owner, id, faults).response.status == 200
    requires GetDoc(id) !in faults2
    requires Enumerates(snapshot, Delete(s, owner, id, faults).state.files.Keys)
    ensures var t := Delete(s, owner, id, faults).state;
      && Download(t, reader, id, faults2).response.status == 404
      && id !in t.files
      && (var l := List(t, reader, snapshot, faults2);
          l.response.status == 200 ==> id !in Ids(l.response.body.files))
      && s.files[id].fileName !in t.blobs
  {
  }

  /** The walk-through: A uploads a private report; A may download it and B
      may not; A makes it public and B may; A deletes it and B gets 404. */
  lemma PrivateThenPublicThenDeleted(s: State, bucket: string, a: Email, b: Email, file: UploadedFile,
                                     now: nat, isoNow: string, id: Id)
    requires a != b
    requires id !in s.files
    requires HeaderSafe(file.originalName)
    ensures
      var s1 := Upload(s, bucket, a, Some(file), Some(Private), now, isoNow, id, {}).state;
      var s2 := UpdateAccessType(s1, a, id, Some(Public), {}).state;
      var s3 := Delete(s2, a, id, {}).state;
      && Download(s1, a, id, {}).response.status == 200
      && Download(s1, b, id, {}).response.status == 403
      && UpdateAccessType(s1, b, id, Some(Public), {}).response.status == 403
      && UpdateAccessType(s1, a, id, Some(Public), {}).response.status == 200
      && Download(s2, b, id, {}).response.status == 200
      && Delete(s2, b, id, {}).response.status == 403
      && Delete(s2, a, id, {}).response.status == 200
      && Download(s3, b, id, {}).response.status == 404
  {
    var s1 := Upload(s, bucket, a, Some(file), Some(Private), now, isoNow, id, {}).state;
    StoredNameHeaderSafe(now, file.originalName);
    assert HeaderSafe(OctetStream);
    var rec := s1.files[id];
    assert rec.uploadedBy == a && rec.accessType == Private && HeadersSafe(rec);
    assert Download(s1, a, id, {}).response.status == 200;
    assert Download(s1, b, id, {}).response.status == 403;
    var s2 := UpdateAccessType(s1, a, id, Some(Public), {}).state;
    assert s2.files[id] == rec.(accessType := Public);
    assert Download(s2, b, id, {}).response.status == 200;
    assert Delete(s2, a, id, {}).response.status == 200;
    var s3 := Delete(s2, a, id, {}).state;
    assert id !in s3.files;
  }
}
