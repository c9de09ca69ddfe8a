/** Failure values for the generator. Each Error constructor stands for one
    Python exception the generator can raise and not catch before `generate`
    reports it. */
module Results {

  datatype Option<+T> = None | Some(value: T)

  datatype Error =
    /** a `KeyError` from indexing a dict with a key it does not hold */
    | MissingKey(key: string)
    /** an `AttributeError` or `TypeError` from a value of the wrong kind */
    | WrongType(what: string)
    /** the `ValueError` of unpacking `split("/")[-2:]` into two names */
    | BadPointer(pointer: string)
    /** the `KeyError` of a reference whose (section, name) is not defined */
    | MissingTarget(section: string, name: string)
    /** the `ValueError` of `int(code)` on a response code */
    | NotAnInteger(code: string)
    /** the `RecursionError` of resolving nested references too deeply */
    | DepthExceeded
    /** the `RuntimeError` of an unknown specification file extension */
    | UnknownFormat(extension: string)

  datatype Result<+T> = Ok(value: T) | Err(error: Error) {
    predicate IsFailure() { Err? }

    function PropagateFailure<U>(): Result<U>
      requires Err?
    {
      Err(error)
    }

    function Extract(): T
      requires Ok?
    {
      value
    }
  }
}
