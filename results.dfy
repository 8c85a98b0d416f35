/** Failure-compatible wrappers shared by the model, and the ways a mirror run can fail. */
module Results {

  /** A value that may be absent, as Python's `None` is for a missing description. */
  datatype Option<+T> = None | Some(value: T)

  /** The outcome of an operation that the script would abort with an exception. */
  datatype Result<+T, +E> = Ok(value: T) | Err(error: E)

  /** Every failure the script can run into, each of which ends the whole run. */
  datatype Error =
    | NoScopeSelected                           // neither the series nor the event flag was set
    | BothScopesSelected                        // both flags were set
    | AclNotFound(scope: string, id: string)    // GET {scope}/{id}/acl on an unknown resource
    | MetadataNotFound(scope: string, id: string) // GET {scope}/{id}/metadata on an unknown resource
    | NoMetadataCatalog(id: string)             // the metadata answer is an empty list
    | NoDescription(id: string)                 // no "description" field, so no role name
}
