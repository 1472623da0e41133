# mini-file-storage: file routes in Dafny

This project models the file-sharing routes of an Express backend. A
signed-in user can upload a file, list the files they may see, download,
delete, and switch a file between `public` and `private`. Each file exists
in two places:

- a document in the Firestore `files` collection, holding `fileName`,
  `fileURL`, `uploadedBy`, `accessType` and `uploadedAt`;
- an object in the storage bucket whose name is the document's `fileName`.

Each handler is a pure function. It takes the two stores and one request
and returns three things:

- the HTTP response (status and body);
- the new stores;
- the store calls it attempted, in order.

The inputs also supply what the real code gets from its environment:

- the requester's email, taken from the verified token;
- the id Firestore generates for a new document;
- the `Date.now()` reading and the ISO time string;
- the bucket name;
- the order in which Firestore returns the collection;
- the set of store calls that throw.

Files:

- `wrappers.dfy`: `Option`.
- `naming.dfy`: how the storage name and URL are built, and the inverse that
  parses a storage name back into its timestamp and original name.
- `store.dfy`: records, objects and store calls; `Replay`, which runs a list
  of store calls; the record/object consistency predicates.
- `access.dfy`: the owner-or-public read rule, the owner-only modify rule,
  and JavaScript's `||` default.
- `file_routes.dfy`: the five handlers and the router `Handle`.
- `properties.dfy`: lemmas that relate several handlers or cover every
  request.

## Model

| member | source | states |
|---|---|---|
| Naming.Decimal | src/routes/fileRoutes.js:27 | `Date.now()` is rendered as a non-empty run of decimal digits with no leading zero |
| Naming.ParseDecimalInvertsDecimal | src/routes/fileRoutes.js:27 | the decimal rendering of the timestamp reads back as the same number |
| Naming.SplitStorageNameInverts | src/routes/fileRoutes.js:27 | the storage name `<timestamp>_<originalname>` splits back into exactly that timestamp and original name, whatever the original name contains |
| Naming.StorageNameInjective | src/routes/fileRoutes.js:27 | two storage names are equal exactly when both the timestamps and the original names are equal |
| Naming.FileURLInjective | src/routes/fileRoutes.js:40 | within one bucket, two recorded URLs are equal exactly when they name the same object |
| FileRoutes.VisibleEntries | src/routes/fileRoutes.js:76-90 | the entries are exactly the snapshot documents that are public or owned by the requester, each `{fileID, fileName, downloadLink}` taken from its record, in snapshot order |
| FileRoutes.Upload | src/routes/fileRoutes.js:15-61 | no file gives 400 with no store touched; otherwise the object is written before the record; a failed object write changes nothing; a failed record write gives 500 and adds no record; success gives 201 and one new record with the derived name and URL, the requester as owner, the access type defaulting to private, and no content type, while every existing record is untouched |
| FileRoutes.List | src/routes/fileRoutes.js:67-98 | the listing never changes the stores; a failed read gives 500; otherwise 200 with exactly the visible records in store order, and the "No files found" note exactly when the collection is empty |
| FileRoutes.Download | src/routes/fileRoutes.js:104-155 | the stores are never changed; an unknown id gives 404; 403 exactly when the record is neither public nor the requester's; 500 exactly when the lookup throws, the stored object name is empty (`bucket.file` refuses it), or `res.setHeader` rejects the attachment name or the content type (a character outside tab, 0x20-0x7E and 0x80-0xFF); otherwise 200 naming the stored object, with the attachment filename set to the stored name and the content type falling back to `application/octet-stream` |
| FileRoutes.Delete | src/routes/fileRoutes.js:162-189 | an unknown id gives 404 and a non-owner gets 403, both with no change; an owner's delete removes the object first and the record second, and answers 200 exactly when neither delete throws; a failed object delete, including one refused for an empty object name, stops with 500 and changes nothing; a failed record delete gives 500 with the object gone and the record still present |
| FileRoutes.UpdateAccessType | src/routes/fileRoutes.js:195-230 | a value other than `public` or `private` gives 400 before any lookup; an unknown id gives 404 and a non-owner gets 403, both with no change; 500 exactly when the lookup or the owner's update throws; a 403, a 404 or a failed lookup makes no call but the lookup; an owner's valid update answers 200 exactly when neither call throws, and changes only that record's access type |
| Properties.HandleEffectsAreItsCalls | src/routes/fileRoutes.js:15-230 | for every request, the new stores are exactly the result of replaying the handler's reported store calls in order, stopping at the first call that throws |
| Properties.OwnershipIsPermanent | src/routes/fileRoutes.js:44-50 | no request changes the name, URL, owner, upload time or content type of a record that survives it |
| Properties.AccessChangesOnlyByOwner | src/routes/fileRoutes.js:201-221 | a record's access type changes only through a 200 access update by its owner, and only to `public` or `private` |
| Properties.RecordRemovedOnlyByOwner | src/routes/fileRoutes.js:167-183 | a record disappears only through a 200 delete by its owner, and then its object is gone too |
| Properties.AccessTypesStayValidExceptUpload | src/routes/fileRoutes.js:26-48 | if every stored access type is `public` or `private`, that stays true after any request except a successful upload that sends another value, and such an upload always breaks it |
| Properties.UploadKeepsRecordsBacked | src/routes/fileRoutes.js:33-50 | because the object is written before the record, no upload leaves a record without its object |
| Properties.UploadConsistency | src/routes/fileRoutes.js:33-58 | when the storage name is new, an upload keeps records and objects one-to-one exactly unless the record write fails after the object write, which leaves an unreferenced object |
| Properties.SameMillisecondUploadsShareObject | src/routes/fileRoutes.js:27-50 | two successful uploads of one original name in the same millisecond write one object, the second overwrites the first, and two records share it |
| Properties.DeleteConsistency | src/routes/fileRoutes.js:180-187 | a delete keeps records and objects one-to-one exactly unless the record delete fails after the object delete, which leaves a record without its object |
| Properties.StoredNameHeaderSafe | src/routes/fileRoutes.js:131-134 | the attachment header of an uploaded file is a valid header value exactly when the client's original file name is |
| Properties.UrlsStayDerived | src/routes/fileRoutes.js:40-48 | if every record's URL is the bucket prefix followed by its object name, every request against that bucket keeps it so |
| Properties.DistinctNamesGiveDistinctUrls | src/routes/fileRoutes.js:40-48 | when URLs are derived from names, two records share a download link exactly when they name the same object |
| Properties.UpdateAccessKeepsConsistency | src/routes/fileRoutes.js:221 | an access update never disturbs the one-to-one correspondence of records and objects |
| Properties.UploadThenDownload | src/routes/fileRoutes.js:27-155 | after a 201 upload, the owner, and anyone else when the file is public, downloads with 200 exactly when the original name is a valid header value, and gets 500 otherwise; the 200 names the object `<timestamp>_<originalname>`, which holds exactly the uploaded bytes, and reports `application/octet-stream` |
| Properties.DeletedFileIsGone | src/routes/fileRoutes.js:162-189 | after an owner's 200 delete, a download answers 404, no listing shows the id, and the object is no longer in the bucket |
| Properties.PrivateThenPublicThenDeleted | src/routes/fileRoutes.js:15-230 | for an original name that is a valid header value: A uploads a private file; A may download it and B gets 403; B may not make it public but A may; B may then download it; B may not delete it but A may; B then gets 404 |

## Notes on the code

- **Unvalidated access type on upload.** The access route's comment
  (src/routes/fileRoutes.js:192-193) and its check (:201) limit access
  types to `public` and `private`. The upload route (:26, :36, :48) stores
  any non-empty value the client sends, and the model does the same.
  `AccessTypesStayValidExceptUpload` states exactly when the restriction
  breaks.
- **Same-millisecond name collisions.** The timestamp prefix (:27) keeps
  same-named uploads apart only when they land in different milliseconds.
  Uploads get no fresh-timestamp precondition, and
  `SameMillisecondUploadsShareObject` shows the collision.
- **Object left behind by a failed upload.** The upload route writes the
  object (:33-38) before the record (:44-50). When the record write throws,
  the catch (:55-58) answers 500 but leaves the object in the bucket
  (`UploadConsistency`).
- **Record left behind by a failed delete.** The delete route removes the
  object (:180) before the record (:181). When the record delete throws,
  the record stays and names a missing object (`DeleteConsistency`).
- **Headers set without checking the object.** The download route never
  checks that the object exists before it sets the headers. `res.setHeader`
  throws on a header value with a character outside tab, 0x20-0x7E and
  0x80-0xFF. A stored name such as `1700000000000_€.pdf` is therefore
  answered 500 by the catch (:150-155), so such a file can be uploaded but
  not downloaded (`UploadThenDownload`).

## Left out

- Express routing, multer buffering, `res.status(...).json(...)` plumbing
  and console logging are left out. Responses are a status and a body
  datatype.
- The token check in src/middleware/authMiddleware.js is left out. It
  answers 401 when the `Authorization` header is absent, and 403 when
  `jwt.verify`, a foreign call, rejects the token. The requester is a plain
  email parameter.
- Streaming the object to the client is left out, along with the stream's
  `error` handler (src/routes/fileRoutes.js:141-149). This is byte-level
  I/O. A successful download names the object to stream, so the 500 for a
  missing object or a mid-stream failure is not modelled.
- The text of `error.message` in 500 bodies is left out. It comes from the
  failing store library.
- Firebase initialisation (src/config/firebase.js) and server start-up
  (server.js) are left out. They are configuration only. The bucket name
  from `FIREBASE_STORAGE_BUCKET` is a parameter; rendering an unset
  variable as `undefined` is not modelled.
- Register and login (src/routes/authRoutes.js) are left out. They rest on
  password hashing and token signing, which are foreign calls.
- Concurrent requests are left out, including racing updates and double
  deletes. The model is sequential.
- Firestore id generation and the clock are inputs. The new id is required
  not to be in the collection; the timestamp is any natural number.
- Firestore's snapshot order is an input that must list every document id
  exactly once. The handler keeps that order.
- Request values that are not strings (JSON numbers, arrays, objects sent
  as `accessType`) are left out. `accessType` is an optional string, so the
  model does not cover the upload route storing a truthy non-string value.
- Documents written by other clients with missing string fields are left
  out. Only `contentType` is optional in a record.
