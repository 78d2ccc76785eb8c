/**
 * Values that stand in for Java's null references and thrown exceptions.
 */
module Wrappers {

  /** A Java reference that may be null: `None` is null. */
  datatype Option<+T> = None | Some(value: T)

  /** The value of a call that either returns `value` or throws `error`. */
  datatype Result<+T, +E> = Success(value: T) | Failure(error: E)

  /** The outcome of a call that returns nothing or throws `error`. */
  datatype Outcome<+E> = Pass | Fail(error: E)
}

/**
 * The exceptions the request context raises.
 */
module Errors {

  datatype Error =
    /** IllegalArgumentException: the access token is null or empty. */
    | AccessTokenRequired
    /** IllegalArgumentException: the request id is null or empty. */
    | RequestIdRequired
    /** IllegalArgumentException: the mode is neither `live` nor `sandbox`. */
    | InvalidMode
    /** IllegalArgumentException: client id and secret are required. */
    | ClientCredentialsRequired
    /** PayPalRESTException: the authorization server gave no token. */
    | AuthenticationFailure
}
