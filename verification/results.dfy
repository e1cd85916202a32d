/** Failure-carrying wrappers shared by the catalog model. */
module Results {

  /** A value that may be absent; used for the editing slot (`null` in the
      component) and for "was a request sent". */
  datatype Option<+T> = None | Some(value: T)

  /** How one awaited HTTP call settled: the response body, or the rejection
      together with its `message`. The network itself is not modelled; every
      transition that awaits a call takes its outcome as a parameter. */
  datatype Outcome<+T> = Ok(data: T) | Fail(message: string)
}
