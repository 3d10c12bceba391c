/** Failure-carrying wrappers shared by the whole client model. Every Python
    exception the client can raise on its own is one `Error` case. */
module Results {

  datatype Option<T> = None | Some(value: T)

  /** The exceptions the client raises, named by their cause. */
  datatype Error =
    | BodyNotJson               // json.loads rejected a response body
    | RefreshFailed             // token reply without an access token
    | TokenNotString            // "Zoho-oauthtoken " + token raised a TypeError
    | BodyNotObject             // content.get(...) on a body that is not a JSON object
    | UnknownMethod(name: string) // neither GET, POST nor PUT: `r` is never bound
    | PageWithoutData           // content["data"] on None, on a list, or on an object without it
    | DataNotList               // the page's data field is neither a JSON array nor a string
    | BadConfig(field: string)  // a credential field is missing or has the wrong type
    | BadComment(field: string) // a comment or mention field is missing or has the wrong type

  datatype Result<T> = Ok(value: T) | Err(error: Error) {
    predicate IsFailure() {
      Err?
    }

    /** The same error, as a result of another value type. */
    function PropagateFailure<U>(): Result<U>
      requires Err?
    {
      Err(error)
    }

    function Extract(): T
      requires Ok?
    {
      value
    }
  }
}
