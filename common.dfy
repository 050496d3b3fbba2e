/** Optional and fallible values: the model's stand-ins for C# `null` and for exceptions. */
module Wrappers {

  /** A value that may be absent, as a C# reference or `Nullable<T>` may be `null`. */
  datatype Option<+T> = None | Some(value: T) {

    /** `x ?? fallback` */
    function GetOr(fallback: T): T {
      match this
      case Some(v) => v
      case None => fallback
    }
  }

  /** The outcome of an operation that either returns a value or throws. */
  datatype Result<+R, +E> = Success(value: R) | Failure(error: E)
}

/** The .NET exceptions the modelled code can raise, represented as values. */
module Exceptions {

  datatype Exception =
    /** System.NullReferenceException: a member access on `null`. */
    | NullReference
    /** System.ArgumentNullException: a `null` passed where a method requires a value. */
    | ArgumentNull
    /** System.InvalidOperationException with its message. */
    | InvalidOperation(message: string)
    /**
     * Newtonsoft.Json.JsonReaderException or JsonSerializationException: the credential cache
     * file is not a credentials JSON object.
     */
    | JsonDeserialization
}
