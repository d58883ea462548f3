/**
 * The results of the scanners and of the provider adapters. Every place
 * where Find_Me.c prints a diagnostic and calls exit(1) yields a
 * `Failure` carrying the matching `Error`.
 */
module Outcomes {
  import opened CStrings

  datatype Error =
    | InvalidFieldIndex                              // fetch: field number below 1
    | FieldNotFound(field: int)                      // fetch: record has too few fields
    | UnableToParse(key: seq<char>, missing: CharClass) // parse/extractValue: a delimiter is missing
    | FailedRequest(status: seq<char>)               // ip-api.com status is not "success"
    | UnableToParseLoc                               // ipinfo.io "loc" holds no comma
    | UnableToReallocate                             // write_mem: realloc() returned NULL

  datatype Result<T> = Success(value: T) | Failure(error: Error) {

    predicate IsFailure() {
      Failure?
    }

    function PropagateFailure<U>(): Result<U>
      requires Failure?
    {
      Failure(error)
    }

    function Extract(): T
      requires Success?
    {
      value
    }
  }
}
