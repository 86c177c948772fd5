/** Failure-carrying datatypes shared by the other modules. */
module Wrappers {

  datatype Option<+T> = None | Some(value: T)

  datatype Result<+T> = Ok(value: T) | Err(error: string)

  /** How one remote call ends: it takes effect and says so, it fails without effect, or it
      takes effect while its reply is lost, so that the caller sees a failure. */
  datatype Outcome = Acked | Refused | LostReply {

    /** The call changed the remote state. */
    predicate Applied() {
      this != Refused
    }

    /** The caller is told that the call succeeded. */
    predicate Succeeded() {
      this == Acked
    }
  }
}
