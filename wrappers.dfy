/** Option, Result and Outcome, and the errors the modelled code can return. */
module Wrappers {

  datatype Option<+T> = None | Some(value: T)

  /** The errors that appear in the core. Each constructor stands for one Go error value or family. */
  datatype Error =
    | Message(text: string)                  // errors.New(text)
    | InvalidScope                           // go-oauth2 errors.ErrInvalidScope
    | UnauthorizedClient                     // go-oauth2 errors.ErrUnauthorizedClient
    | InvalidAccessToken                     // go-oauth2 errors.ErrInvalidAccessToken
    | ExpiredAccessToken                     // go-oauth2 errors.ErrExpiredAccessToken
    | DuplicateKey(table: string)            // primary-key violation reported by the database
    | StorageFailure                         // any other failure of the database connection
    | TimeParse(layout: string, value: string) // *time.ParseError
    | NumSyntax(input: string)               // *strconv.NumError wrapping ErrSyntax
    | NumRange(input: string)                // *strconv.NumError wrapping ErrRange
    | CannotConvert(target: string)          // fmt.Errorf("can not convert %v to <target>", v)
    | Foreign(code: nat)                     // an error produced by code outside the model

  /** The text `err.Error()` yields, where the model knows it. */
  function ErrorText(e: Error): string
  {
    match e
    case Message(t) => t
    case InvalidScope => "invalid_scope"
    case UnauthorizedClient => "unauthorized_client"
    case InvalidAccessToken => "invalid access token"
    case ExpiredAccessToken => "expired access token"
    case DuplicateKey(t) => "duplicate key value violates unique constraint on " + t
    case StorageFailure => "storage failure"
    case TimeParse(l, v) => "parsing time \"" + v + "\" as \"" + l + "\""
    case NumSyntax(i) => "strconv.ParseInt: parsing \"" + i + "\": invalid syntax"
    case NumRange(i) => "strconv.ParseInt: parsing \"" + i + "\": value out of range"
    case CannotConvert(t) => "can not convert value to " + t
    case Foreign(_) => "foreign error"
  }

  /** A (value, error) pair of Go in which exactly one side is meaningful. */
  datatype Result<+T> = Ok(value: T) | Err(error: Error)

  /** A Go `error` return: nil (Pass) or an error. */
  datatype Outcome = Pass | Fail(error: Error)

  /**
   * A Go interface value: nil, a nil pointer of some concrete type (which compares unequal to nil),
   * or a value.
   */
  datatype Interface<+T> = NilInterface | NilPointer | Holding(value: T)

  /** Returning a pointer (None is nil) as an interface: a nil pointer gives a non-nil interface. */
  function FromPointer<T>(p: Option<T>): (r: Interface<T>)
    ensures r != NilInterface
    ensures r.Holding? <==> p.Some?
    ensures p.Some? ==> r.value == p.value
  {
    match p
    case None => NilPointer
    case Some(v) => Holding(v)
  }

  /** How a Go call ends: it returns, or it panics. */
  datatype Completion<+T> = Returned(value: T) | Panicked(reason: string)
}
