/** Failure-carrying values: JavaScript's `undefined` result and thrown
    exceptions become `None` and `Throws`. */
module Wrappers {

  datatype Option<T> = None | Some(value: T)

  /** The exceptions the modelled code can throw. */
  datatype JsError =
    | TypeError      // a property read or call on `undefined`/`null`, a non-function called
    | SyntaxError    // `RegExp(source)` on an invalid pattern
    | URIError       // `decodeURIComponent` on a malformed escape
    | UserError      // `throw new Error(...)` in the code itself

  datatype Result<T> = Ok(value: T) | Throws(error: JsError)
}
