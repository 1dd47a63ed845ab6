/** The response envelope `Response<T>` and the exceptions it carries. The envelope's own file and
    `tryAsResponse` are not part of this model; they are given here the meaning their callers rely on. */
module Responses {
  import opened Wrappers

  /** A JVM exception, abstracted to what the error classification reads: whether it is a
      `SocketTimeoutException`, its (nullable) message and its printed stack trace. */
  datatype Exception = Exception(isTimeout: bool, message: Option<string>, stackTrace: string)

  datatype Response<+T> = Success(data: T) | Error(message: string, exception: Exception)

  /** What a block of code does when run: it returns a value or throws an exception. */
  datatype Outcome<+T> = Returned(value: T) | Threw(exception: Exception)

  /** `tryAsResponse { block }`: a thrown exception becomes an `Error` that carries it. */
  function TryAsResponse<T>(o: Outcome<T>): (r: Response<T>)
    ensures o.Returned? <==> r.Success?
    ensures o.Returned? ==> r.data == o.value
    ensures o.Threw? ==> r.exception == o.exception
  {
    match o
    case Returned(v) => Success(v)
    case Threw(e) => Error(e.message.GetOr(""), e)
  }

  /** `Response<Response<T>>.flatten()`: a success that holds an error is that error. */
  function Flatten<T>(r: Response<Response<T>>): (f: Response<T>)
    ensures r.Success? ==> f == r.data
    ensures r.Error? ==> f == Error(r.message, r.exception)
  {
    match r
    case Success(inner) => inner
    case Error(m, e) => Error(m, e)
  }

  /** `flatMapError { f }`: only the `Error` branch is rewritten. */
  function FlatMapError<T>(r: Response<T>, f: (string, Exception) -> Response<T>): (g: Response<T>)
    ensures r.Success? ==> g == r
    ensures r.Error? ==> g == f(r.message, r.exception)
  {
    match r
    case Success(_) => r
    case Error(m, e) => f(m, e)
  }

  /** Running the block to its end, possibly throwing part-way: `o.map(f)` in monadic terms. */
  function MapOutcome<A, B>(o: Outcome<A>, f: A -> B): (r: Outcome<B>)
    ensures o.Returned? ==> r == Returned(f(o.value))
    ensures o.Threw? ==> r == Threw(o.exception)
  {
    match o
    case Returned(v) => Returned(f(v))
    case Threw(e) => Threw(e)
  }

  /** Running the block when its continuation may itself throw. */
  function BindOutcome<A, B>(o: Outcome<A>, f: A -> Outcome<B>): (r: Outcome<B>)
    ensures o.Returned? ==> r == f(o.value)
    ensures o.Threw? ==> r == Threw(o.exception)
  {
    match o
    case Returned(v) => f(v)
    case Threw(e) => Threw(e)
  }
}
