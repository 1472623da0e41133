/**
  The two external stores the file routes write to: the Firestore `files`
  collection (document id to file record) and the storage bucket (object name
  to blob). Each store call is a value of `Call`; a handler reports the calls
  it attempted, and `Replay` says what those calls did to the stores.
 */
module Store {
  import opened Wrappers

  type Id = string
  type Email = string
  newtype Byte = b: int | 0 <= b < 256

  /** A document of the `files` collection. `contentType` is read by the download
      route but never written by the upload route. */
  datatype FileRecord = FileRecord(
    fileName: string,
    fileURL: string,
    uploadedBy: Email,
    accessType: string,
    uploadedAt: string,
    contentType: Option<string>)

  /** A stored object: its bytes and the metadata `file.save` attaches to it. */
  datatype Blob = Blob(content: seq<Byte>, contentType: string, accessType: string)

  datatype State = State(files: map<Id, FileRecord>, blobs: map<string, Blob>)

  /** One call into a store. */
  datatype Call =
    | ListDocs
    | GetDoc(id: Id)
    | SaveBlob(name: string, blob: Blob)
    | AddDoc(id: Id, record: FileRecord)
    | DeleteBlob(name: string)
    | DeleteDoc(id: Id)
    | UpdateAccess(id: Id, accessType: string)

  /** Whether `c` returns normally: it is not one of the calls the environment
      makes throw (`faults`); it does not name the object `""`, which
      `bucket.file` refuses; and it is not a bucket delete of a missing object
      or a document update of a missing document, both of which reject. */
  predicate Succeeds(s: State, c: Call, faults: set<Call>) {
    && c !in faults
    && match c
       case SaveBlob(name, _) => name != ""
       case DeleteBlob(name) => name != "" && name in s.blobs
       case UpdateAccess(id, _) => id in s.files
       case _ => true
  }

  /** The effect of a call that returned normally. */
  function Apply(s: State, c: Call): (t: State)
    ensures !(c.AddDoc? || c.DeleteDoc? || c.UpdateAccess?) ==> t.files == s.files
    ensures !(c.SaveBlob? || c.DeleteBlob?) ==> t.blobs == s.blobs
  {
    match c
    case ListDocs => s
    case GetDoc(_) => s
    case SaveBlob(name, blob) => s.(blobs := s.blobs[name := blob])
    case AddDoc(id, record) => s.(files := s.files[id := record])
    case DeleteBlob(name) => s.(blobs := s.blobs - {name})
    case DeleteDoc(id) => s.(files := s.files - {id})
    case UpdateAccess(id, accessType) =>
      if id in s.files then s.(files := s.files[id := s.files[id].(accessType := accessType)]) else s
  }

  /** The stores after running `trace` in order; the first call that throws
      ends the run and changes nothing. */
  function Replay(s: State, trace: seq<Call>, faults: set<Call>): State
    decreases |trace|
  {
    if |trace| == 0 then s
    else if Succeeds(s, trace[0], faults) then Replay(Apply(s, trace[0]), trace[1..], faults)
    else s
  }

  /** The object names the records refer to. */
  function NamesInUse(files: map<Id, FileRecord>): set<string> {
    set id | id in files :: files[id].fileName
  }

  /** Every record refers to an object that exists. */
  predicate NoDanglingRecords(s: State) {
    forall id :: id in s.files ==> s.files[id].fileName in s.blobs
  }

  /** Every object is referred to by some record. */
  predicate NoOrphanBlobs(s: State) {
    forall name :: name in s.blobs ==> name in NamesInUse(s.files)
  }

  /** No two records share an object. */
  predicate DistinctNames(files: map<Id, FileRecord>) {
    forall a, b :: a in files && b in files && a != b ==> files[a].fileName != files[b].fileName
  }

  /** Records and objects are in one-to-one correspondence. */
  predicate Consistent(s: State) {
    NoDanglingRecords(s) && NoOrphanBlobs(s) && DistinctNames(s.files)
  }
}
