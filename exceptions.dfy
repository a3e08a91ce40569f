/**
 * The exceptions the core throws or catches. Java's unchecked exceptions
 * become the error side of `Result`; a `throw` is an `Err`.
 */
module Exceptions {
  import opened Wrappers

  /** A bean-validation failure on one field of a request body. */
  datatype FieldError = FieldError(field: string, defaultMessage: string)

  datatype Exception =
    | NotFound(message: string)           // NotFoundException
    | Business(message: string)           // BusinessException
    | Unauthorized(message: string)       // UnauthorizedException
    | ArgumentNotValid(errors: seq<FieldError>)  // MethodArgumentNotValidException
    | UsernameNotFound(message: string)   // Spring Security's UsernameNotFoundException
    | AuthenticationFailed                // any AuthenticationException of the authentication manager
    | Jwt(message: string)                // a JwtException raised while parsing a token
    | NullPointer                         // a dereference of a claim that is absent

  /**
   * `getMessage()` of an exception: the text the core supplies, or `None`
   * where the text is produced by a library or the JVM and is not modelled.
   */
  function MessageOf(e: Exception): Option<string> {
    match e
    case NotFound(m) => Some(m)
    case Business(m) => Some(m)
    case Unauthorized(m) => Some(m)
    case UsernameNotFound(m) => Some(m)
    case Jwt(m) => Some(m)
    case ArgumentNotValid(_) => None
    case AuthenticationFailed => None
    case NullPointer => None
  }

  /** A value, or the exception that was thrown instead. */
  datatype Result<+T> = Ok(value: T) | Err(error: Exception) {

    predicate IsFailure() {
      Err?
    }

    function PropagateFailure<U>(): Result<U>
      requires Err?
    {
      Err(error)
    }

    function Extract(): T
      requires Ok?
    {
      value
    }
  }
}
