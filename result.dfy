/** The Result record used for expected failures: `{data, error}` where
    `result(x)` carries data and an empty error, and `error(m)` carries only a
    message. `getData` and `getError` throw on the wrong variant; here the
    throw is a value of its own. */
module Results {
  import opened JsValues

  datatype Result<T> = Success(data: T) | Failure(error: string)

  /** `r.data`; `undefined` (None) for a failure. */
  function DataOf<T>(r: Result<T>): Option<T>
  {
    if r.Success? then Some(r.data) else None
  }

  /** `r.error`; the empty string for a success. */
  function ErrorOf<T>(r: Result<T>): string
  {
    if r.Success? then "" else r.error
  }

  /** `isError` */
  predicate IsError<T>(r: Result<T>)
  {
    r.Failure?
  }

  /** A value, or the message of the error thrown instead. */
  datatype Attempt<T> = Value(value: T) | Thrown(message: string)

  const DataOnError: string := "tried to get data on erroneous result"
  const ErrorOnValid: string := "tried to get error on valid result"

  /** `getData`: the payload of a success; throws on a failure. */
  function GetData<T>(r: Result<T>): (d: Attempt<T>)
    ensures d.Value? <==> !IsError(r)
    ensures d.Value? ==> Success(d.value) == r && DataOf(r) == Some(d.value)
    ensures d.Thrown? ==> d.message == DataOnError
  {
    if r.Success? then Value(r.data) else Thrown(DataOnError)
  }

  /** `getError`: the message of a failure; throws on a success. */
  function GetError<T>(r: Result<T>): (m: Attempt<string>)
    ensures m.Value? <==> IsError(r)
    ensures m.Value? ==> Failure(m.value) == r && ErrorOf(r) == m.value
    ensures m.Thrown? ==> m.message == ErrorOnValid
  {
    if r.Failure? then Value(r.error) else Thrown(ErrorOnValid)
  }

  /** `result(x)` has `data == x`, `error == ''`, is no error, gives `x`
      back and refuses `getError`. */
  lemma SuccessRecord<T>(x: T)
    ensures DataOf(Success(x)) == Some(x) && ErrorOf(Success(x)) == ""
    ensures !IsError(Success(x))
    ensures GetData(Success(x)) == Value(x)
    ensures GetError(Success(x)) == Thrown(ErrorOnValid)
  {
  }

  /** `error(m)` has no data, `error == m`, is an error, gives `m` back and
      refuses `getData`. */
  lemma FailureRecord<T>(m: string)
    ensures DataOf(Result<T>.Failure(m)) == None && ErrorOf(Result<T>.Failure(m)) == m
    ensures IsError(Result<T>.Failure(m))
    ensures GetError(Result<T>.Failure(m)) == Value(m)
    ensures GetData(Result<T>.Failure(m)) == Thrown(DataOnError)
  {
  }

  /** Exactly one of the two fields is meaningful: a result is an error
      precisely when it has no data, and then its message is its error. */
  lemma OneFieldActive<T>(r: Result<T>)
    ensures IsError(r) <==> DataOf(r) == None
    ensures !IsError(r) ==> ErrorOf(r) == "" && r == Success(GetData(r).value)
    ensures IsError(r) ==> r == Failure(ErrorOf(r))
  {
  }
}
