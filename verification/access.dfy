/** The owner-or-public rule the routes apply inline before reading or changing a record. */
module Access {
  import opened Wrappers
  import opened Store

  const Public: string := "public"
  const Private: string := "private"

  /** The two values the access-update route accepts. */
  predicate IsAccessType(a: string) {
    a == Public || a == Private
  }

  /** Read permission: the record is public, or the requester uploaded it. */
  predicate CanRead(r: FileRecord, who: Email) {
    r.accessType == Public || r.uploadedBy == who
  }

  /** Modify and delete permission: only the uploader. */
  predicate CanModify(r: FileRecord, who: Email) {
    r.uploadedBy == who
  }

  /** JavaScript's `value || fallback` on an optional string: an absent or
      empty value is falsy and gives the fallback. */
  function OrElse(value: Option<string>, fallback: string): string {
    if value.Some? && value.value != "" then value.value else fallback
  }
}
